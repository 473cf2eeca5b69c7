/**
 The plugin object `Tickets`. Its fields persist from one query to the next,
 and its methods change them step by step as the Python methods do; each
 method is proved to agree with the functions of QueryParser and
 TrainFormatter, whose properties are proved there.

 The ticket service is not called: `Query` receives, as the parameter
 `fetch`, what the service gives back for a list of request parameters.
 */
module Tickets {
  import opened Text
  import opened Dates
  import opened QueryParser
  import opened TrainFormatter

  const QueryTitle: string := "火车票查询"

  /** Request parameters, in insertion order (an `OrderedDict`). */
  type Params = seq<(string, string)>

  /** What the call to the ticket service ends in. */
  datatype Fetched =
    | Unreachable                 // `requests.get` raised
    | Undecodable(error: string)  // reading `response.json()['data']['datas']` raised this message
    | Trains(items: seq<Train>)   // the list of trains in the answer

  /** The parameters of the ticket request for the fields of a successful parse. */
  function RequestParams(f: Fields): Params
    requires f.fromSta.Some? && f.toSta.Some? && f.offTime.Some?
  {
    [("purpose_codes", if f.isStudent then "0x00" else "ADULT"),
     ("queryDate", f.offTime.value),
     ("from_station", f.fromSta.value),
     ("to_station", f.toSta.value)]
  }

  function ParamNames(params: Params): seq<string> {
    seq(|params|, i requires 0 <= i < |params| => params[i].0)
  }

  /** `params.get(name)`: the value stored under `name`, if any. */
  function ParamValue(params: Params, name: string): Option<string> {
    if params == [] then None
    else if params[0].0 == name then Some(params[0].1)
    else ParamValue(params[1..], name)
  }

  /**
   The request carries the purpose code, the date and the two station codes,
   in that order; the purpose code is the student one exactly when `is_student`.
   */
  lemma RequestParamsOrder(f: Fields)
    requires f.fromSta.Some? && f.toSta.Some? && f.offTime.Some?
    ensures ParamNames(RequestParams(f)) == ["purpose_codes", "queryDate", "from_station", "to_station"]
    ensures ParamValue(RequestParams(f), "purpose_codes") == Some(if f.isStudent then "0x00" else "ADULT")
    ensures ParamValue(RequestParams(f), "queryDate") == f.offTime
    ensures ParamValue(RequestParams(f), "from_station") == f.fromSta
    ensures ParamValue(RequestParams(f), "to_station") == f.toSta
  {
    var p := RequestParams(f);
    assert p[1..] == [p[1], p[2], p[3]];
    assert p[1..][1..] == [p[2], p[3]];
    assert p[1..][1..][1..] == [p[3]];
    assert p[1..][1..][1..][1..] == [];
    assert ParamValue(p, "from_station") == ParamValue(p[1..], "from_station") == ParamValue(p[1..][1..], "from_station");
    assert ParamValue(p, "to_station") == ParamValue(p[1..], "to_station") == ParamValue(p[1..][1..], "to_station")
      == ParamValue(p[1..][1..][1..], "to_station");
  }

  /** The fields after the service call: a decoding error is stored in `error_info`. */
  function AfterFetch(f: Fields, fetched: Fetched): (g: Fields)
    ensures g.trainType == f.trainType && g.fromSta == f.fromSta && g.toSta == f.toSta
    ensures g.offTime == f.offTime && g.isStudent == f.isStudent
    ensures g.errorInfo == if fetched.Undecodable? then Some(fetched.error) else f.errorInfo
  {
    if fetched.Undecodable? then f.(errorInfo := Some(fetched.error)) else f
  }

  /** The records `query` returns after a successful parse. */
  function FetchedRecords(fetched: Fetched): (r: seq<Record>)
    ensures !fetched.Trains? ==> r == []
    ensures fetched.Trains? ==> |r| <= |fetched.items|
  {
    if fetched.Trains? then Records(fetched.items) else []
  }

  class Tickets {
    /** The station directory: station name to station code. */
    const stations: map<string, string>

    var trainType: Option<seq<nat>>
    var fromSta: Option<string>
    var toSta: Option<string>
    var offTime: Option<string>
    var isStudent: bool
    var errorInfo: Option<string>

    function Snapshot(): Fields
      reads this
    {
      Fields(trainType, fromSta, toSta, offTime, isStudent, errorInfo)
    }

    constructor (stations: map<string, string>)
      ensures this.stations == stations && Snapshot() == Initial
    {
      this.stations := stations;
      trainType, fromSta, toSta, offTime := None, None, None, None;
      isStudent, errorInfo := false, None;
    }

    /** `stations.get(name)`. */
    function StationCode(name: string): (code: Option<string>)
      ensures code.Some? <==> name in stations
      ensures code.Some? ==> code.value == stations[name]
    {
      if name in stations then Some(stations[name]) else None
    }

    /** The loop over the letters after `-`: each known letter appends its number to `train_type`. */
    method ReadTrainType(trainTypeTmp: string)
      modifies this
      ensures trainType == Some(TypeIndices(trainTypeTmp))
      ensures fromSta == old(fromSta) && toSta == old(toSta) && offTime == old(offTime)
      ensures isStudent == old(isStudent) && errorInfo == old(errorInfo)
    {
      trainType := Some([]);
      var i := 0;
      while i < |trainTypeTmp|
        invariant 0 <= i <= |trainTypeTmp|
        invariant trainType == Some(TypeIndices(trainTypeTmp[..i]))
        invariant fromSta == old(fromSta) && toSta == old(toSta) && offTime == old(offTime)
        invariant isStudent == old(isStudent) && errorInfo == old(errorInfo)
      {
        var item := trainTypeTmp[i];
        assert trainTypeTmp[..i + 1][..i] == trainTypeTmp[..i];
        if item in TypeLetters {
          trainType := Some(trainType.value + [TypeIndex(item)]);
          assert TypeIndices(trainTypeTmp[..i + 1]) == TypeIndices(trainTypeTmp[..i]) + [TypeIndex(item)];
        } else {
          assert TypeIndices(trainTypeTmp[..i + 1]) == TypeIndices(trainTypeTmp[..i]);
        }
        i := i + 1;
      }
      assert trainTypeTmp[..i] == trainTypeTmp;
    }

    /** `parser`: reads the query into the fields; an empty or blank query raises `IndexError`. */
    method Parser(query: string) returns (ok: bool)
      requires Tokens(query) != []
      modifies this
      ensures (ok, Snapshot()) == Parse(old(Snapshot()), stations, query)
    {
      var allParameter := Tokens(query);
      if allParameter[0][0] == '-' {
        if allParameter[0] == HelpFlag {
          errorInfo := Some(HelpText);
          return false;
        }
        ReadTrainType(allParameter[0][1..]);
        allParameter := allParameter[1..];
      }
      ghost var flagged := Snapshot();
      assert flagged == WithFlag(old(Snapshot()), Tokens(query)[0]);
      assert allParameter == Positionals(Tokens(query));
      assert Parse(old(Snapshot()), stations, query) == ParseArgs(flagged, stations, allParameter);
      ok := ParseRest(allParameter);
    }

    /** The part of `parser` after the flag token: stations, date and student flag. */
    method ParseRest(allParameter: seq<string>) returns (ok: bool)
      modifies this
      ensures (ok, Snapshot()) == ParseArgs(old(Snapshot()), stations, allParameter)
    {

      if |allParameter| < 3 {
        errorInfo := Some(ArityError);
        return false;
      }

      var tmp := StationCode(allParameter[0]);
      if tmp.None? || tmp.value == "" {
        errorInfo := Some(OriginError);
        return false;
      }
      fromSta := tmp;

      tmp := StationCode(allParameter[1]);
      if tmp.None? || tmp.value == "" {
        errorInfo := Some(DestinationError);
        return false;
      }
      toSta := tmp;

      offTime := Some(allParameter[2]);
      var timeFormat;
      if '-' in offTime.value {
        timeFormat := Dashed;
      } else if '/' in offTime.value {
        timeFormat := Slashed;
      } else {
        timeFormat := Compact;
      }
      var timeTmp := StrpTime(offTime.value, timeFormat);
      if timeTmp.None? {
        errorInfo := Some(DateError);
        return false;
      }
      offTime := Some(FormatDate(timeTmp.value));

      if |allParameter| == 4 {
        if allParameter[3] == StudentFlag {
          isStudent := true;
        }
      }
      return true;
    }

    /** `get_one_train`: the display record of one train; `None` for a missing field. */
    method GetOneTrain(item: Train) returns (oneTrain: Option<Record>)
      ensures oneTrain == TrainRecord(item)
    {
      if !HasFields(item) {
        return None;
      }
      var title := item["station_train_code"];

      var subTitle: seq<string> := [];
      subTitle := subTitle + ["出发站: "];
      subTitle := subTitle + [item["from_station_name"] + " @"];
      subTitle := subTitle + [item["start_time"]];
      subTitle := subTitle + [" 到达站: "];
      subTitle := subTitle + [item["to_station_name"]];
      subTitle := subTitle + [" @" + item["arrive_time"]];
      subTitle := subTitle + [" 历时: " + item["lishi"]];
      subTitle := subTitle + ["\t\t"];
      assert subTitle == Header(item);

      // `all_site_info`: label to count; the labels are distinct (SeatTableLabelsDistinct).
      var allSiteInfo: seq<(string, string)> := [];
      var i := 0;
      while i < |SeatTable|
        invariant 0 <= i <= |SeatTable|
        invariant allSiteInfo == SeatInfo(item, SeatTable[..i])
      {
        var (key, value) := SeatTable[i];
        assert SeatTable[..i + 1][..i] == SeatTable[..i];
        if key in item && item[key] != "" {
          if IsDigits(item[key]) {
            allSiteInfo := allSiteInfo + [(value, item[key])];
          }
        }
        i := i + 1;
      }
      assert SeatTable[..i] == SeatTable;

      if |allSiteInfo| == 0 {
        subTitle := subTitle + [SoldOut];
        assert subTitle == Header(item) + SeatSection(item);
      } else {
        var j := 0;
        while j < |allSiteInfo|
          invariant 0 <= j <= |allSiteInfo|
          invariant subTitle == Header(item) + SeatParts(allSiteInfo[..j])
        {
          var (key, value) := allSiteInfo[j];
          assert allSiteInfo[..j + 1][..j] == allSiteInfo[..j];
          subTitle := subTitle + [" " + key + " : "];
          subTitle := subTitle + [value];
          j := j + 1;
        }
        assert allSiteInfo[..j] == allSiteInfo;
        assert subTitle == Header(item) + SeatSection(item);
      }
      oneTrain := Some(Record(title, Join(subTitle, " "), Icon));
    }

    /** The parameter-building part of `get_train_info`. */
    method TrainInfoParams() returns (params: Params)
      requires fromSta.Some? && toSta.Some? && offTime.Some?
      ensures params == RequestParams(Snapshot())
    {
      params := [];
      params := params + [("purpose_codes", if isStudent then "0x00" else "ADULT")];
      params := params + [("queryDate", offTime.value)];
      params := params + [("from_station", fromSta.value)];
      params := params + [("to_station", toSta.value)];
    }

    /** `get_train_info`: the trains of the answer; `None` when the call or the decoding raised. */
    method GetTrainInfo(fetch: Params -> Fetched) returns (trainInfo: Option<seq<Train>>)
      requires fromSta.Some? && toSta.Some? && offTime.Some?
      modifies this
      ensures var fetched := fetch(RequestParams(old(Snapshot())));
        Snapshot() == AfterFetch(old(Snapshot()), fetched) &&
        trainInfo == if fetched.Trains? then Some(fetched.items) else None
    {
      var params := TrainInfoParams();
      var response := fetch(params);
      match response
      case Unreachable =>
        trainInfo := None;
      case Undecodable(er) =>
        errorInfo := Some(er);
        trainInfo := None;
      case Trains(items) =>
        trainInfo := Some(items);
    }

    /**
     `query`: a refused query gives one record carrying `error_info`; an accepted
     one gives the records of the answer's trains, up to the first train missing
     a field, and no record at all when the call or its decoding raised.
     */
    method Query(query: string, fetch: Params -> Fetched) returns (results: seq<Record>)
      requires Tokens(query) != []
      modifies this
      ensures var r := Parse(old(Snapshot()), stations, query);
        !r.0 ==> Snapshot() == r.1 && results == [Record(QueryTitle, r.1.errorInfo.value, Icon)]
      ensures var r := Parse(old(Snapshot()), stations, query);
        r.0 ==> (Snapshot() == AfterFetch(r.1, fetch(RequestParams(r.1)))
          && results == FetchedRecords(fetch(RequestParams(r.1))))
    {
      var parserResult := Parser(query);
      if !parserResult {
        results := [Record(QueryTitle, errorInfo.value, Icon)];
      } else {
        results := CollectTrains(fetch);
      }
    }

    /**
     The `try` block of `query`: fetch the trains and collect their records; an
     exception (a failed call, an undecodable answer, a train missing a field)
     ends it and keeps the records collected so far.
     */
    method CollectTrains(fetch: Params -> Fetched) returns (results: seq<Record>)
      requires fromSta.Some? && toSta.Some? && offTime.Some?
      modifies this
      ensures var fetched := fetch(RequestParams(old(Snapshot())));
        Snapshot() == AfterFetch(old(Snapshot()), fetched) && results == FetchedRecords(fetched)
    {
      results := [];
      var trainInfo := GetTrainInfo(fetch);
      if trainInfo.Some? {
        results := CollectRecords(trainInfo.value);
      }
    }

    /**
     The loop of `query` over the trains: one record per train, in order,
     until `get_one_train` raises on a train missing a field.
     */
    method CollectRecords(items: seq<Train>) returns (results: seq<Record>)
      ensures results == Records(items)
    {
      results := [];
      var i := 0;
      while i < |items|
        invariant 0 <= i <= |items|
        invariant Records(items) == results + Records(items[i..])
      {
        var oneTrain := GetOneTrain(items[i]);
        RecordsFrom(items, i);
        if oneTrain.None? {
          assert Records(items) == results + [];
          break;
        }
        results := results + [oneTrain.value];
        i := i + 1;
      }
    }
  }
}
