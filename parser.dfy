/**
 What `Tickets.parser` does to the plugin's fields, as a function from the
 fields before a call to the boolean it returns and the fields after it.
 The method `Tickets.Parser` in module Tickets performs the same steps on
 the object and is proved to agree with `Parse`.

 The station directory is a parameter `stations` (name to station code).
 */
module QueryParser {
  import opened Text
  import opened Dates

  const HelpFlag: string := "-h"
  const StudentFlag: string := "-s"

  /** The train-type letters; a letter's position is the number stored for it. */
  const TypeLetters: string := "dgktz"

  const HelpText: string := "提示信息： -h : 帮助, -d : 动车, -g : 高铁, -k : 快速, -t : 特快, -z : 直达"
  const ArityError: string := "出错了: 参数数量不足"
  const OriginError: string := "出错了: 未知起始地"
  const DestinationError: string := "出错了: 未知目的地"
  const DateError: string := "出错了: 时间格式错误"

  /** The instance fields `parser` reads and writes; `None` is Python's `None`. */
  datatype Fields = Fields(
    trainType: Option<seq<nat>>,
    fromSta: Option<string>,
    toSta: Option<string>,
    offTime: Option<string>,
    isStudent: bool,
    errorInfo: Option<string>)

  /** The class-level defaults every new plugin object starts from. */
  const Initial: Fields := Fields(None, None, None, None, false, None)

  /** `"dgktz".index(c)`. */
  function TypeIndex(c: char): (i: nat)
    requires c in TypeLetters
    ensures i < |TypeLetters| && TypeLetters[i] == c
  {
    FirstIndex(TypeLetters, c)
  }

  /** The list the flag loop appends to, letter by letter, for the text after `-`. */
  function TypeIndices(letters: string): (r: seq<nat>)
    ensures |r| <= |letters|
    ensures forall k :: 0 <= k < |r| ==> r[k] < |TypeLetters|
  {
    if letters == [] then []
    else
      var c := letters[|letters| - 1];
      TypeIndices(letters[..|letters| - 1]) + (if c in TypeLetters then [TypeIndex(c)] else [])
  }

  /** The letters of `letters` that name a train type, in their order. */
  function Recognised(letters: string): string {
    if letters == [] then []
    else (if letters[0] in TypeLetters then [letters[0]] else []) + Recognised(letters[1..])
  }

  /** The train-type letters a list of indices stands for. */
  function Named(indices: seq<nat>): string
    requires forall k :: 0 <= k < |indices| ==> indices[k] < |TypeLetters|
  {
    seq(|indices|, k requires 0 <= k < |indices| => TypeLetters[indices[k]])
  }

  lemma {:induction false} RecognisedSnoc(letters: string, c: char)
    ensures Recognised(letters + [c]) == Recognised(letters) + (if c in TypeLetters then [c] else [])
  {
    var first := if letters != [] && letters[0] in TypeLetters then [letters[0]] else [];
    if letters == [] {
      assert letters + [c] == [c];
      assert [c][1..] == [];
    } else {
      var s := letters + [c];
      assert s[0] == letters[0] && s[1..] == letters[1..] + [c];
      assert Recognised(s) == first + Recognised(letters[1..] + [c]);
      RecognisedSnoc(letters[1..], c);
      assert Recognised(letters) == first + Recognised(letters[1..]);
    }
  }

  /** `train_type` names exactly the recognised letters of the flag, in order; the rest are dropped. */
  lemma {:induction false} TypeIndicesNameRecognised(letters: string)
    ensures Named(TypeIndices(letters)) == Recognised(letters)
  {
    if letters != [] {
      var init, c := letters[..|letters| - 1], letters[|letters| - 1];
      assert letters == init + [c];
      TypeIndicesNameRecognised(init);
      RecognisedSnoc(init, c);
    }
  }

  /** `stations.get(name)` is truthy: the name is known and its code is not empty. */
  predicate Known(stations: map<string, string>, name: string) {
    name in stations && stations[name] != ""
  }

  /** A first token starting with `-` is a flag token and is not positional. */
  function Positionals(tokens: seq<string>): (r: seq<string>)
    requires tokens != [] && tokens[0] != []
    ensures |tokens| - 1 <= |r| <= |tokens|
    ensures forall k :: 0 <= k < |r| ==> r[k] == tokens[|tokens| - |r| + k]
  {
    if tokens[0][0] == '-' then tokens[1..] else tokens
  }

  /** The fields after the flag token, if the first token is one: it replaces `train_type`. */
  function WithFlag(f: Fields, head: string): (r: Fields)
    requires head != []
    ensures r.(trainType := f.trainType) == f
  {
    if head[0] == '-' then f.(trainType := Some(TypeIndices(head[1..]))) else f
  }

  /** The part of `parser` after the flag token, on the positional tokens `args`. */
  function ParseArgs(f: Fields, stations: map<string, string>, args: seq<string>): (r: (bool, Fields))
    ensures r.0 ==> r.1.fromSta.Some? && r.1.toSta.Some? && r.1.offTime.Some?
    ensures !r.0 ==> r.1.errorInfo.Some?
  {
    if |args| < 3 then (false, f.(errorInfo := Some(ArityError)))
    else if !Known(stations, args[0]) then (false, f.(errorInfo := Some(OriginError)))
    else
      var f2 := f.(fromSta := Some(stations[args[0]]));
      if !Known(stations, args[1]) then (false, f2.(errorInfo := Some(DestinationError)))
      else
        var f3 := f2.(toSta := Some(stations[args[1]]), offTime := Some(args[2]));
        match ParseDate(args[2])
        case None => (false, f3.(errorInfo := Some(DateError)))
        case Some(d) =>
          var f4 := f3.(offTime := Some(FormatDate(d)));
          (true, if |args| == 4 && args[3] == StudentFlag then f4.(isStudent := true) else f4)
  }

  /** `parser(query)` on fields `f`: the value returned and the fields afterwards. */
  function Parse(f: Fields, stations: map<string, string>, query: string): (r: (bool, Fields))
    requires Tokens(query) != []
    ensures r.0 ==> r.1.fromSta.Some? && r.1.toSta.Some? && r.1.offTime.Some?
    ensures !r.0 ==> r.1.errorInfo.Some?
  {
    var tokens := Tokens(query);
    var head := tokens[0];
    if head[0] == '-' && head == HelpFlag then (false, f.(errorInfo := Some(HelpText)))
    else ParseArgs(WithFlag(f, head), stations, Positionals(tokens))
  }

  /** The first token of a query that has one. */
  function Head(query: string): string
    requires Tokens(query) != []
  {
    Tokens(query)[0]
  }

  function Args(query: string): seq<string>
    requires Tokens(query) != []
  {
    Positionals(Tokens(query))
  }

  /** The queries `parser` accepts, stated on the query alone. */
  predicate Accepts(stations: map<string, string>, query: string)
    requires Tokens(query) != []
  {
    var args := Args(query);
    Head(query) != HelpFlag && |args| >= 3 && Known(stations, args[0]) && Known(stations, args[1])
    && ParseDate(args[2]).Some?
  }

  /** An accepted query that also asks for student tickets. */
  predicate AsksStudent(stations: map<string, string>, query: string)
    requires Tokens(query) != []
  {
    Accepts(stations, query) && |Args(query)| == 4 && Args(query)[3] == StudentFlag
  }

  /** `-h` only sets the help text: no request field is written. */
  lemma ParseHelp(f: Fields, stations: map<string, string>, query: string)
    requires Tokens(query) != [] && Head(query) == HelpFlag
    ensures Parse(f, stations, query) == (false, f.(errorInfo := Some(HelpText)))
  {
  }

  /** Any other flag token replaces `train_type`, whatever happens after; without one it is kept. */
  lemma ParseTrainType(f: Fields, stations: map<string, string>, query: string)
    requires Tokens(query) != []
    ensures var head := Head(query);
      Parse(f, stations, query).1.trainType ==
        if head[0] == '-' && head != HelpFlag then Some(TypeIndices(head[1..])) else f.trainType
  {
  }

  /** Fewer than three positional tokens: the arity message, nothing else written but `train_type`. */
  lemma ParseTooFewArguments(f: Fields, stations: map<string, string>, query: string)
    requires Tokens(query) != [] && Head(query) != HelpFlag && |Args(query)| < 3
    ensures var (ok, g) := Parse(f, stations, query);
      !ok && g == f.(trainType := g.trainType, errorInfo := Some(ArityError))
  {
  }

  /** An unknown origin: the origin message; stations, date and student flag untouched. */
  lemma ParseUnknownOrigin(f: Fields, stations: map<string, string>, query: string)
    requires Tokens(query) != [] && Head(query) != HelpFlag && |Args(query)| >= 3
    requires !Known(stations, Args(query)[0])
    ensures var (ok, g) := Parse(f, stations, query);
      !ok && g == f.(trainType := g.trainType, errorInfo := Some(OriginError))
  {
  }

  /** An unknown destination: the origin's code is already stored when the message is set. */
  lemma ParseUnknownDestination(f: Fields, stations: map<string, string>, query: string)
    requires Tokens(query) != [] && Head(query) != HelpFlag && |Args(query)| >= 3
    requires Known(stations, Args(query)[0]) && !Known(stations, Args(query)[1])
    ensures var (ok, g) := Parse(f, stations, query);
      !ok && g == f.(trainType := g.trainType, fromSta := Some(stations[Args(query)[0]]),
                     errorInfo := Some(DestinationError))
  {
  }

  /** A date the format refuses: the date message, and `off_time` keeps the raw token. */
  lemma ParseBadDate(f: Fields, stations: map<string, string>, query: string)
    requires Tokens(query) != [] && Head(query) != HelpFlag && |Args(query)| >= 3
    requires Known(stations, Args(query)[0]) && Known(stations, Args(query)[1])
    requires ParseDate(Args(query)[2]).None?
    ensures var (ok, g) := Parse(f, stations, query);
      var args := Args(query);
      !ok && g == f.(trainType := g.trainType, fromSta := Some(stations[args[0]]),
                     toSta := Some(stations[args[1]]), offTime := Some(args[2]),
                     errorInfo := Some(DateError))
  {
  }

  /** `parser` returns True exactly for the accepted queries, whatever the fields were. */
  lemma ParseSucceedsIff(f: Fields, stations: map<string, string>, query: string)
    requires Tokens(query) != []
    ensures Parse(f, stations, query).0 <==> Accepts(stations, query)
  {
  }

  /** A successful parse stores both codes and the normalised date and keeps `error_info`. */
  lemma {:induction false} ParseSuccess(f: Fields, stations: map<string, string>, query: string)
    requires Tokens(query) != [] && Accepts(stations, query)
    ensures var (ok, g) := Parse(f, stations, query);
      var args := Args(query);
      var d := ParseDate(args[2]).value;
      ok && g.fromSta == Some(stations[args[0]]) && g.toSta == Some(stations[args[1]])
      && g.offTime == Some(FormatDate(d)) && g.errorInfo == f.errorInfo
      && g.offTime.value[4] == '-' && g.offTime.value[7] == '-' && |g.offTime.value| == 10
      && ParseDate(g.offTime.value) == Some(d)
  {
    FormatRoundTrip(ParseDate(Args(query)[2]).value);
  }

  /** `is_student` is only ever switched on, and only by an accepted query ending in `-s`. */
  lemma ParseStudent(f: Fields, stations: map<string, string>, query: string)
    requires Tokens(query) != []
    ensures Parse(f, stations, query).1.isStudent == (f.isStudent || AsksStudent(stations, query))
  {
    var head := Head(query);
    if head != HelpFlag {
      var args := Args(query);
      var f1 := WithFlag(f, head);
      assert Parse(f, stations, query) == ParseArgs(f1, stations, args);
      ParseArgsStudent(f1, stations, args);
    }
  }

  lemma ParseArgsStudent(f: Fields, stations: map<string, string>, args: seq<string>)
    ensures ParseArgs(f, stations, args).1.isStudent ==
      (f.isStudent || (|args| == 4 && Known(stations, args[0]) && Known(stations, args[1])
                       && ParseDate(args[2]).Some? && args[3] == StudentFlag))
  {
  }

  /** Every refusal leaves one of the five fixed messages in `error_info`. */
  lemma ParseFailureReports(f: Fields, stations: map<string, string>, query: string)
    requires Tokens(query) != []
    ensures var (ok, g) := Parse(f, stations, query);
      !ok ==> (g.errorInfo.Some? &&
        g.errorInfo.value in {HelpText, ArityError, OriginError, DestinationError, DateError})
  {
  }

  /** The fields after parsing the queries one after another on the same object. */
  function ParseAll(f: Fields, stations: map<string, string>, queries: seq<string>): Fields
    requires forall i :: 0 <= i < |queries| ==> Tokens(queries[i]) != []
    decreases |queries|
  {
    if queries == [] then f
    else ParseAll(Parse(f, stations, queries[0]).1, stations, queries[1..])
  }

  /**
   Over a run of queries on one object, `is_student` ends up set exactly when it
   was set before or some accepted query in the run asked for it: nothing resets it.
   */
  lemma {:induction false} StudentIsSticky(f: Fields, stations: map<string, string>, queries: seq<string>)
    requires forall i :: 0 <= i < |queries| ==> Tokens(queries[i]) != []
    ensures ParseAll(f, stations, queries).isStudent <==>
      f.isStudent || exists i :: 0 <= i < |queries| && AsksStudent(stations, queries[i])
    decreases |queries|
  {
    if queries != [] {
      var g := Parse(f, stations, queries[0]).1;
      ParseStudent(f, stations, queries[0]);
      StudentIsSticky(g, stations, queries[1..]);
      assert forall i :: 1 <= i < |queries| ==> queries[i] == queries[1..][i - 1];
      if exists i :: 0 <= i < |queries| && AsksStudent(stations, queries[i]) {
        var i :| 0 <= i < |queries| && AsksStudent(stations, queries[i]);
        if i > 0 {
          assert AsksStudent(stations, queries[1..][i - 1]);
        }
      }
    }
  }
}
