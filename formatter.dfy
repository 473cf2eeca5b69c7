/**
 The display record `Tickets.get_one_train` builds from one train of the
 ticket service's answer, and the result list `Tickets.query` collects.
 A train is the service's dictionary of text fields.
 */
module TrainFormatter {
  import opened Text

  type Train = map<string, string>

  /** One entry of the launcher's result list. */
  datatype Record = Record(title: string, subTitle: string, icoPath: string)

  const Icon: string := "Images/app.ico"
  const SoldOut: string := "没票啦！"

  /** The eleven seat classes: the train's field name and the label shown for it, in this order. */
  const SeatTable: seq<(string, string)> := [
    ("swz_num", "商务座"),
    ("tz_num", "特等座"),
    ("zy_num", "一等座"),
    ("ze_num", "二等座"),
    ("gr_num", "高级软卧"),
    ("rw_num", "软卧"),
    ("yw_num", "硬卧"),
    ("rz_num", "软座"),
    ("yz_num", "硬座"),
    ("wz_num", "无座"),
    ("qt_num", "其他")
  ]

  /** The fields read with `item[...]`; a missing one raises `KeyError`. */
  predicate HasFields(item: Train) {
    "station_train_code" in item && "from_station_name" in item && "start_time" in item &&
    "to_station_name" in item && "arrive_time" in item && "lishi" in item
  }

  /** The subtitle pieces before the seat section: stations, times and travel time. */
  function Header(item: Train): (parts: seq<string>)
    requires HasFields(item)
    ensures |parts| == 8
  {
    ["出发站: ", item["from_station_name"] + " @", item["start_time"], " 到达站: ",
     item["to_station_name"], " @" + item["arrive_time"], " 历时: " + item["lishi"], "\t\t"]
  }

  /** `item.get(key)` is truthy and `item[key].isdigit()`. */
  predicate Qualifies(item: Train, key: string) {
    key in item && IsDigits(item[key])
  }

  /** The `all_site_info` entries (label, count) for the classes of `table` that have a count. */
  function SeatInfo(item: Train, table: seq<(string, string)>): seq<(string, string)> {
    if table == [] then []
    else
      var (key, seat) := table[|table| - 1];
      SeatInfo(item, table[..|table| - 1]) + (if Qualifies(item, key) then [(seat, item[key])] else [])
  }

  /** The labels of listed seat classes, (label, count) pairs. */
  function Labels(info: seq<(string, string)>): seq<string> {
    seq(|info|, j requires 0 <= j < |info| => info[j].0)
  }

  /** The labels of a table of (field name, label) pairs. */
  function TableLabels(table: seq<(string, string)>): seq<string> {
    seq(|table|, k requires 0 <= k < |table| => table[k].1)
  }

  /** The pieces `" label : "` and the count that each listed seat class adds to the subtitle. */
  function SeatParts(info: seq<(string, string)>): (parts: seq<string>)
    ensures |parts| == 2 * |info|
  {
    if info == [] then []
    else
      var (seat, count) := info[|info| - 1];
      SeatParts(info[..|info| - 1]) + [" " + seat + " : ", count]
  }

  /** The seat section: the counts, or the sold-out marker when there are none. */
  function SeatSection(item: Train): (r: seq<string>)
    ensures r == [SoldOut] || |r| == 2 * |SeatInfo(item, SeatTable)|
  {
    var info := SeatInfo(item, SeatTable);
    if info == [] then [SoldOut] else SeatParts(info)
  }

  /** `get_one_train(item)`; `None` stands for the `KeyError` of a missing field. */
  function TrainRecord(item: Train): (r: Option<Record>)
    ensures r.Some? <==> HasFields(item)
    ensures r.Some? ==> r.value.title == item["station_train_code"] && r.value.icoPath == Icon
  {
    if HasFields(item) then
      Some(Record(item["station_train_code"], Join(Header(item) + SeatSection(item), " "), Icon))
    else None
  }

  /** The records `query` collects: one per train, until a train raises `KeyError`. */
  function Records(items: seq<Train>): (r: seq<Record>)
    ensures |r| <= |items|
  {
    if items == [] || !HasFields(items[0]) then []
    else [TrainRecord(items[0]).value] + Records(items[1..])
  }

  predicate DistinctLabels(table: seq<(string, string)>) {
    forall i, j :: 0 <= i < j < |table| ==> table[i].1 != table[j].1
  }

  lemma SeatTableLabelsDistinct()
    ensures DistinctLabels(SeatTable)
  {
  }

  /**
   A seat class is listed exactly when its field is present and all digits, with
   the train's own value as its count; each label is listed at most once and
   nothing outside the table is listed.
   */
  lemma {:induction false} SeatInfoExact(item: Train, table: seq<(string, string)>)
    requires DistinctLabels(table)
    ensures forall k :: 0 <= k < |table| ==>
      (table[k].1 in Labels(SeatInfo(item, table)) <==> Qualifies(item, table[k].0))
    ensures forall k :: 0 <= k < |table| && Qualifies(item, table[k].0) ==>
      (table[k].1, item[table[k].0]) in SeatInfo(item, table)
    ensures forall i, j :: 0 <= i < j < |SeatInfo(item, table)| ==>
      SeatInfo(item, table)[i].0 != SeatInfo(item, table)[j].0
    ensures forall j :: 0 <= j < |SeatInfo(item, table)| ==> SeatInfo(item, table)[j].0 in TableLabels(table)
  {
    var info := SeatInfo(item, table);
    if table == [] {
      assert info == [];
    } else {
      var init, last := table[..|table| - 1], table[|table| - 1];
      assert DistinctLabels(init);
      SeatInfoExact(item, init);
      var before := SeatInfo(item, init);
      var added := if Qualifies(item, last.0) then [(last.1, item[last.0])] else [];
      assert info == before + added;
      assert forall k :: 0 <= k < |init| ==> init[k] == table[k];
      assert Labels(info) == Labels(before) + (if Qualifies(item, last.0) then [last.1] else []);
      assert forall k :: 0 <= k < |init| ==> TableLabels(table)[k] == TableLabels(init)[k];
      assert TableLabels(table) == TableLabels(init) + [last.1];
      assert last.1 !in Labels(before) by {
        forall j | 0 <= j < |before| ensures before[j].0 != last.1 {
          assert before[j].0 in TableLabels(init);
          var k :| 0 <= k < |init| && TableLabels(init)[k] == before[j].0;
          assert before[j].0 == init[k].1 == table[k].1;
          assert table[k].1 != table[|table| - 1].1;
        }
      }
      forall i, j | 0 <= i < j < |info| ensures info[i].0 != info[j].0 {
        if j >= |before| {
          assert info[j].0 == last.1 && info[i] == before[i];
          assert Labels(before)[i] == before[i].0;
        }
      }
      forall j | 0 <= j < |info| ensures info[j].0 in TableLabels(table) {
        if j < |before| {
          assert info[j] == before[j];
          assert before[j].0 in TableLabels(init);
        } else {
          assert TableLabels(table)[|table| - 1] == last.1;
        }
      }
    }
  }

  lemma {:induction false} SeatInfoEmptyIff(item: Train, table: seq<(string, string)>)
    ensures SeatInfo(item, table) == [] <==> forall k :: 0 <= k < |table| ==> !Qualifies(item, table[k].0)
  {
    if table != [] {
      var init := table[..|table| - 1];
      SeatInfoEmptyIff(item, init);
      assert forall k :: 0 <= k < |init| ==> init[k] == table[k];
    }
  }

  /** The sold-out marker is the whole seat section exactly when no seat class has a count. */
  lemma SoldOutIff(item: Train)
    ensures SeatSection(item) == [SoldOut] <==>
      forall k :: 0 <= k < |SeatTable| ==> !Qualifies(item, SeatTable[k].0)
  {
    SeatInfoEmptyIff(item, SeatTable);
  }

  /** With no count the subtitle is the header followed by the sold-out marker and nothing else. */
  lemma SoldOutSubtitle(item: Train)
    requires HasFields(item)
    requires forall k :: 0 <= k < |SeatTable| ==> !Qualifies(item, SeatTable[k].0)
    ensures TrainRecord(item).Some?
    ensures TrainRecord(item).value.subTitle == Join(Header(item), " ") + " " + SoldOut
  {
    SeatInfoEmptyIff(item, SeatTable);
    JoinAppend(Header(item), [SoldOut], " ");
  }

  lemma {:induction false} SeatPartsAt(info: seq<(string, string)>, j: nat)
    requires j < |info|
    ensures SeatParts(info)[2 * j] == " " + info[j].0 + " : " && SeatParts(info)[2 * j + 1] == info[j].1
  {
    if j < |info| - 1 {
      SeatPartsAt(info[..|info| - 1], j);
    }
  }

  /** The j-th listed seat class shows its label and its count, side by side, in the subtitle. */
  lemma ListedSeatInSubtitle(item: Train, j: nat)
    requires HasFields(item) && j < |SeatInfo(item, SeatTable)|
    ensures TrainRecord(item).Some?
    ensures Contains(TrainRecord(item).value.subTitle,
                     " " + SeatInfo(item, SeatTable)[j].0 + " : " + " " + SeatInfo(item, SeatTable)[j].1)
  {
    var info := SeatInfo(item, SeatTable);
    SeatPartsAt(info, j);
    var parts := Header(item) + SeatParts(info);
    assert SeatSection(item) == SeatParts(info);
    assert TrainRecord(item).value.subTitle == Join(parts, " ");
    assert parts[8 + 2 * j] == " " + info[j].0 + " : " && parts[8 + 2 * j + 1] == info[j].1;
    JoinContainsNeighbours(parts, 8 + 2 * j, " ");
  }

  /** A seat class with a count shows its label and its count, side by side, in the subtitle. */
  lemma ShownSeatInSubtitle(item: Train, k: nat)
    requires HasFields(item) && k < |SeatTable| && Qualifies(item, SeatTable[k].0)
    ensures TrainRecord(item).Some?
    ensures Contains(TrainRecord(item).value.subTitle,
                     " " + SeatTable[k].1 + " : " + " " + item[SeatTable[k].0])
  {
    SeatTableLabelsDistinct();
    SeatInfoExact(item, SeatTable);
    var info := SeatInfo(item, SeatTable);
    assert (SeatTable[k].1, item[SeatTable[k].0]) in info;
    var j :| 0 <= j < |info| && info[j] == (SeatTable[k].1, item[SeatTable[k].0]);
    ListedSeatInSubtitle(item, j);
  }

  lemma RecordsCons(items: seq<Train>)
    requires items != [] && HasFields(items[0])
    ensures Records(items) == [TrainRecord(items[0]).value] + Records(items[1..])
  {
  }

  /** One step of the collection from train `i` on: its record and the rest, or nothing. */
  lemma RecordsFrom(items: seq<Train>, i: nat)
    requires i < |items|
    ensures HasFields(items[i]) ==> Records(items[i..]) == [TrainRecord(items[i]).value] + Records(items[i + 1..])
    ensures !HasFields(items[i]) ==> Records(items[i..]) == []
  {
    assert items[i..][0] == items[i] && items[i..][1..] == items[i + 1..];
  }

  /** Records come in the order of the trains, one per train, up to the first train missing a field. */
  lemma {:induction false} RecordsUpTo(items: seq<Train>, n: nat)
    requires n <= |items|
    requires forall j :: 0 <= j < n ==> HasFields(items[j])
    requires n == |items| || !HasFields(items[n])
    ensures |Records(items)| == n
    ensures forall j :: 0 <= j < n ==> Some(Records(items)[j]) == TrainRecord(items[j])
  {
    if n == 0 {
      assert items == [] || !HasFields(items[0]);
    } else {
      var rest := items[1..];
      assert forall j :: 0 <= j < n - 1 ==> rest[j] == items[j + 1];
      RecordsUpTo(rest, n - 1);
      RecordsCons(items);
      forall j | 0 <= j < n ensures Some(Records(items)[j]) == TrainRecord(items[j]) {
        if j > 0 {
          assert Records(items)[j] == Records(rest)[j - 1] && items[j] == rest[j - 1];
        }
      }
    }
  }

  /** When every train has its fields, there is one record per train, in the trains' order. */
  lemma AllTrainsShown(items: seq<Train>)
    requires forall j :: 0 <= j < |items| ==> HasFields(items[j])
    ensures |Records(items)| == |items|
    ensures forall j :: 0 <= j < |items| ==> TrainRecord(items[j]) == Some(Records(items)[j])
  {
    RecordsUpTo(items, |items|);
  }
}
