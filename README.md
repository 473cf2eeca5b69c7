# Train-ticket query plugin — Dafny model

The plugin is a launcher plugin (`Tickets`, a `Wox` subclass). It reads a query
such as `-gd 北京 上海 2016-07-04 -s` and does three things:

- it parses the query into fields of the plugin object (train-type flags,
  origin and destination station codes, the travel date normalised to
  `YYYY-MM-DD`, the student flag, and an error message);
- it asks the railway ticket service for the trains;
- it turns each train into a result record with a title, a subtitle and an icon.

The model has five modules:

- `Text` (text.dfy) holds the pieces of Python string behaviour the plugin uses:
  - `str.split()` with the full set of whitespace characters that `str.isspace` knows;
  - `" ".join`;
  - `isdigit` on ASCII digits;
  - `str.index`;
  - `Contains`, a substring test that the code itself never makes. It only serves
    to state that a seat class's label and count appear in the subtitle.
- `Dates` (dates.dfy) holds the date formats `%Y-%m-%d`, `%Y/%m/%d` and
  `%Y%m%d` as `datetime.strptime` reads them when the digits are ASCII (see
  "Left out" for what else `strptime` accepts), and `strftime("%Y-%m-%d")`.
- `QueryParser` (parser.dfy) has `Parse`, which is `parser` as a function from
  the fields before a call to the returned boolean and the fields after it. It
  also has `ParseAll`, which parses a run of queries on one object.
- `TrainFormatter` (formatter.dfy) has `TrainRecord`, which is `get_one_train`
  as a function, and `Records`, the list `query` collects.
- `Tickets` (tickets.dfy) has the class `Tickets`. Its fields are the Python
  instance fields, and its methods update them step by step.
  - `Parser`, `ReadTrainType`, `GetOneTrain`, `TrainInfoParams`, `GetTrainInfo`,
    `CollectTrains`, `CollectRecords` and `Query` are proved equal to the
    functions above.
  - The station directory is a constant field `stations` of the object.
  - The ticket service is a parameter `fetch`, a function from the request
    parameters to what the call ends in:
    - the call raised;
    - the answer could not be decoded, with the message;
    - the list of trains.

Points where the code behaves in ways a reader might not expect, and which the
model follows:

- An empty or blank query raises `IndexError` at main.py:109. The model
  requires a query with at least one token in `Parser` and `Query`.
- The purpose code sent with the request is `0x00` for students and `ADULT`
  otherwise (main.py:93).
- The code has no train-number filter, no purchasability check and no ranking.
  The parsed train-type letters are stored but never used.
- `query` returns the records of the trains in the service's order, up to the
  first train missing a field (main.py:35-41). The model takes every train
  field to be text (see "Left out"). When the call or the decoding
  of the answer fails, it returns no record at all.

## Model

| member | source | states |
|---|---|---|
| Text.Tokens | main.py:106 | `query.split()` yields whitespace-free, non-empty tokens, and none at all exactly when the query is blank |
| Text.TokensOfJoin | main.py:106 | splitting words joined by blanks gives the same words back |
| Text.Interleave | main.py:106 | defines the text made of words with a run of characters before, between and after them |
| Text.TokensAfterSpace | main.py:106 | whitespace in front of a text does not change how `split()` splits it |
| Text.TokensOfWordFirst | main.py:106 | a word followed by whitespace or by the end of the text splits off as the first token |
| Text.TokensOfInterleave | main.py:106 | words separated by non-empty runs of any whitespace, with optional whitespace before and after, split into exactly those words, for every such text |
| Text.Join | main.py:85 | defines `sep.join(parts)`: the parts in order with one separator between neighbours; JoinAppend and JoinContainsNeighbours state its properties |
| Text.JoinAppend | main.py:85 | joining a concatenation puts exactly one separator between the two joined halves |
| Text.JoinContainsNeighbours | main.py:85 | two neighbouring subtitle pieces appear in the joined subtitle with one blank between them |
| Text.FirstIndex | main.py:117 | `all_type.index(item)` is the first position holding the letter |
| Text.IsDigits | main.py:74 | defines `isdigit()` on ASCII: non-empty and every character `0`-`9` |
| Dates.SplitOn | main.py:139-141 | the pieces between separators contain no separator, and there is at least one |
| Dates.SplitOnJoin | main.py:139-141 | joining the pieces back with the separator gives the token back |
| Dates.FormatFor | main.py:138-143 | the format is `%Y-%m-%d` exactly when the token has a `-`, `%Y/%m/%d` exactly when it has a `/` but no `-`, and `%Y%m%d` otherwise |
| Dates.StrpTime | main.py:145 | a date any of the three formats accepts is a valid calendar date, and `%Y%m%d` accepts only 8-character tokens |
| Dates.ParseDate | main.py:137-145 | a date the format accepts is a valid calendar date (year 1-9999, month 1-12, day within the month, leap years counted) |
| Dates.FormatDate | main.py:150 | the normalised date is ten characters, digits with `-` at positions 4 and 7 |
| Dates.FormatRoundTrip | main.py:145-150 | the normalised text parses back to the same date |
| Dates.SeparatedParse | main.py:138-148 | digit fields of the accepted widths around `-` or `/` parse to the date they name when it exists, and are refused otherwise |
| Dates.SeparatedForm | main.py:138-145 | such fields naming a valid date are accepted with that date |
| Dates.SeparatedRefused | main.py:138-148 | such fields naming no calendar date (month 13, 29 February of a common year) are refused |
| Dates.CompactParse | main.py:142-148 | eight digits parse to the date of their 4-2-2 split when it exists, and are refused otherwise |
| Dates.CompactForm | main.py:142-145 | eight digits whose split names a valid date are accepted with that date |
| Dates.CompactRefused | main.py:142-148 | eight digits whose split names no calendar date are refused |
| Dates.SeparatedFields | main.py:138-145 | an accepted token with `-` or `/` is exactly three digit fields of the accepted widths around that separator, and its date is the one they name |
| Dates.CompactFields | main.py:142-145 | an accepted token without a separator is exactly eight digits, and its date is that of their 4-2-2 split |
| Dates.AllFormsAgree | main.py:138-145 | the dashed form with or without zero padding, the slashed forms and the 8-digit form of a valid date all parse to that date |
| Dates.CompactNormalisation | main.py:143-150 | an accepted 8-digit token is normalised by inserting `-` after the year and after the month |
| Dates.NormalFormIsFixed | main.py:138-150 | an accepted token already in `YYYY-MM-DD` form is stored unchanged |
| Dates.ExampleDashed | main.py:139 | `2016-7-4` denotes 4 July 2016 |
| Dates.ExampleSlashed | main.py:141 | `2016/07/04` denotes 4 July 2016 |
| Dates.ExampleCompact | main.py:143 | `20160704` denotes 4 July 2016 |
| Dates.ExampleNormalised | main.py:150 | 4 July 2016 is written `2016-07-04` |
| Dates.ExampleLeapDay | main.py:143-150 | `20160229` is accepted as 29 February 2016 |
| Dates.ExampleNoLeapDay | main.py:143-148 | `20150229` is refused, 2015 not being a leap year |
| QueryParser.TypeIndex | main.py:117 | the stored number of a letter is its position in `dgktz` |
| QueryParser.TypeIndices | main.py:113-117 | the flag loop stores at most one number per letter, each below 5 |
| QueryParser.TypeIndicesNameRecognised | main.py:113-117 | the stored numbers name exactly the recognised letters of the flag, in order, and unknown letters are dropped |
| QueryParser.Known | main.py:125-134 | defines the `not tmp` test: the name is in the directory and its code is not empty |
| QueryParser.WithFlag | main.py:109-119 | a flag token changes no field but `train_type` |
| QueryParser.Positionals | main.py:109-119 | the positional tokens are the query's tokens with at most the first one dropped |
| QueryParser.ParseArgs | main.py:121-155 | after the flag token, success leaves both station codes and a date stored, and failure leaves an error message |
| QueryParser.Parse | main.py:105-155 | `parser` returning True leaves both station codes and a date stored; returning False leaves an error message |
| QueryParser.ParseHelp | main.py:110-112 | `-h` sets only the help text and returns False |
| QueryParser.ParseTrainType | main.py:109-119 | any other flag token replaces `train_type` whatever happens next; without one, `train_type` is kept |
| QueryParser.ParseTooFewArguments | main.py:121-123 | fewer than three positional tokens sets the arity message and writes nothing else but `train_type` |
| QueryParser.ParseUnknownOrigin | main.py:125-128 | an unknown or empty-coded origin sets the origin message; stations, date and student flag are untouched |
| QueryParser.ParseUnknownDestination | main.py:129-134 | an unknown destination sets its message after the origin code was already stored |
| QueryParser.ParseBadDate | main.py:135-148 | a refused date sets the date message, and `off_time` keeps the raw token |
| QueryParser.ParseSucceedsIff | main.py:105-155 | `parser` returns True exactly for the accepted queries (not `-h`, three positional tokens, both stations known, a date the format accepts), whatever the fields were before |
| QueryParser.ParseSuccess | main.py:125-150 | success stores both codes and the normalised date, which parses back to the same date, and keeps `error_info` |
| QueryParser.ParseStudent | main.py:152-154 | `is_student` becomes true exactly when it already was or the accepted query has a fourth positional token `-s`; it is never reset |
| QueryParser.ParseFailureReports | main.py:111-147 | every refusal leaves one of the five fixed messages in `error_info` |
| QueryParser.ParseArgsStudent | main.py:152-154 | after the flag token, `is_student` becomes true exactly when it already was or four positional tokens, both stations known and an accepted date end in `-s` |
| QueryParser.StudentIsSticky | main.py:152-154 | over a run of queries on one object, `is_student` ends up set exactly when it started set or some accepted query asked for it |
| TrainFormatter.Header | main.py:49-57 | the eight subtitle pieces before the seat section |
| TrainFormatter.SeatParts | main.py:81-83 | each listed seat class adds two pieces to the subtitle |
| TrainFormatter.Qualifies | main.py:73-74 | defines the seat test: `item.get(key)` is truthy and `item[key].isdigit()` |
| TrainFormatter.SeatInfo | main.py:71-75 | defines `all_site_info` in the table's order; SeatInfoExact states what it holds |
| TrainFormatter.SeatSection | main.py:77-83 | the seat section is the sold-out marker alone, or two pieces per listed seat class |
| TrainFormatter.Records | main.py:35-41 | at most one record per train: collection stops at the first train missing a field, so the records never outnumber the trains (RecordsUpTo says which records there are) |
| TrainFormatter.TrainRecord | main.py:45-88 | a record exists exactly when the six fields read with `item[...]` are present; its title is the train code and its icon `Images/app.ico` |
| TrainFormatter.SeatTableLabelsDistinct | main.py:58-70 | the eleven seat labels are distinct |
| TrainFormatter.SeatInfoExact | main.py:71-75 | a seat class is listed exactly when its field is present and all digits, with the train's count; each label at most once, and only labels of the table |
| TrainFormatter.SeatInfoEmptyIff | main.py:72-77 | nothing is listed exactly when no seat field qualifies |
| TrainFormatter.SoldOutIff | main.py:77-78 | the sold-out marker is the whole seat section exactly when no seat class has a count |
| TrainFormatter.SoldOutSubtitle | main.py:77-85 | with no count, the subtitle is the joined header, a blank and `没票啦！` |
| TrainFormatter.SeatPartsAt | main.py:81-83 | the pieces of the j-th listed seat class are its `" label : "` and its count |
| TrainFormatter.ListedSeatInSubtitle | main.py:81-85 | the j-th listed seat class shows `" label : "`, a blank and its count side by side in the joined subtitle |
| TrainFormatter.ShownSeatInSubtitle | main.py:72-85 | every seat class with a count shows `" label : "`, a blank and the count in the subtitle |
| TrainFormatter.RecordsUpTo | main.py:35-41 | the collected records are those of the trains before the first train with a missing field, in order |
| TrainFormatter.RecordsCons | main.py:37-39 | a first train with all its fields contributes its record, and collection goes on with the rest |
| TrainFormatter.RecordsFrom | main.py:37-40 | from train `i` on, the records are that train's record followed by the rest when it has its fields, and nothing when it misses one |
| TrainFormatter.AllTrainsShown | main.py:37-39 | when every train has its fields there is one record per train, in the service's order |
| Tickets.RequestParamsOrder | main.py:92-96 | the request carries the purpose code, the date and the two station codes in that order; the purpose code is `0x00` exactly for students and `ADULT` otherwise |
| Tickets.RequestParams | main.py:92-96 | defines the four request parameters; RequestParamsOrder states their order and values |
| Tickets.AfterFetch | main.py:98-102 | the service call changes no field but `error_info`, and sets it to the decoding error's message when there is one |
| Tickets.FetchedRecords | main.py:35-41 | a failed call or decoding gives no record, and an answer gives at most one record per train |
| Tickets.Tickets.StationCode | main.py:125 | `stations.get(name)`: a code exactly for the names in the directory, the directory's own code |
| Tickets.Tickets.constructor | main.py:12-19 | a new object starts from the class defaults |
| Tickets.Tickets.Parser | main.py:105-155 | the object's fields and the returned flag are exactly those of `Parse` on the previous fields |
| Tickets.Tickets.ReadTrainType | main.py:113-117 | the letter loop leaves in `train_type` exactly the numbers of the recognised letters, in order, and changes no other field |
| Tickets.Tickets.ParseRest | main.py:121-155 | the steps after the flag token change the fields exactly as `ParseArgs` |
| Tickets.Tickets.GetOneTrain | main.py:45-88 | the record built step by step is `TrainRecord(item)`, and `None` where a field is missing |
| Tickets.Tickets.TrainInfoParams | main.py:92-96 | the parameters built are `RequestParams` of the current fields |
| Tickets.Tickets.GetTrainInfo | main.py:90-103 | the trains of the answer are returned; a decoding failure stores its message in `error_info` and returns nothing |
| Tickets.Tickets.CollectTrains | main.py:35-41 | the `try` block of `query` gives exactly the records of the answer's trains up to the first train missing a field, none when the call or decoding fails, and stores a decoding error |
| Tickets.Tickets.CollectRecords | main.py:37-40 | the loop over the trains returns exactly `Records` of them: their records in order, up to the first train missing a field |
| Tickets.Tickets.Query | main.py:23-43 | a refused query gives exactly one record titled `火车票查询` carrying `error_info`; an accepted one gives the records of the trains up to the first incomplete train, or none when the call or the decoding failed |

## Left out

- The HTTP request to the ticket service, its URL, and `verify = False` are not modelled. The answer is the parameter `fetch`.
- The JSON decoding of the answer is not modelled. `fetch` yields the list of trains or the decoding error directly.
- `Tickets.Tickets.GetTrainInfo`: the error is modelled as its message text. In the code, `self.error_info` holds the exception object itself.
- The contents of the station directory (`stations.py`) are not part of this model. The directory is a map given to the constructor.
- The `Wox` and `WoxAPI` plumbing, the `__main__` entry and the `debug` call in the exception handler are not modelled. Only their effect is kept: the exception ends the loop and keeps the records collected so far.
- `Tickets.Tickets.Parser`: an empty or blank query raises `IndexError` in the code. It is excluded by a precondition rather than modelled as a crash.
- `Tickets.Tickets.Parser`: it is split into the flag part, the letter loop `ReadTrainType` and `ParseRest`. Python has one method; the steps and the order of field writes are unchanged.
- `Tickets.Tickets.Query`: its `try` block is the separate method `CollectTrains`, and the loop over the trains inside it is `CollectRecords`. The steps and their order are unchanged.
- `Dates.ParseDate` covers the subset of `strptime` that the three formats accept: a 4-digit year, and a 1- or 2-digit month and day around the separator. For `%Y%m%d` it covers exactly 8 digits. `strptime` also accepts 6- and 7-digit tokens such as `2016704`, where its pattern takes a 1-digit month or day, and the model refuses them. It also refuses dates written in non-ASCII decimal digits, such as the full-width `２０１６-０７-０４`, which `strptime` accepts because its `\d` matches any Unicode decimal digit and `int()` converts them.
- `Dates.StrpTime`: it reads only ASCII digits `0`-`9` in the year, month and day fields. `strptime` also accepts every Unicode decimal digit there (full-width digits, Arabic-Indic digits and so on), so the model refuses some tokens that the code accepts and normalises.
- `TrainFormatter.TrainRecord`: the service's train fields are taken to be text (a train is a map from text to text). In the code, a JSON `null` or number in a header field makes `+` (main.py:51, 55, 56) or `" ".join` (main.py:85) raise `TypeError`. A truthy non-text seat value makes `.isdigit()` (main.py:74) raise `AttributeError`. Either error ends the loop at main.py:37-40, just as a missing field does. That path is not modelled.
- `TrainFormatter.Records`: because the fields are taken to be text, a train stops the collection only when it misses a field, not when a field holds a value of another type.
- `Text.IsDigits`: `isdigit` also accepts non-ASCII digits (for example full-width digits), and the model accepts only `0`-`9`.
- `TrainFormatter.SeatInfo`: the model lists seat classes in the order of the dict literal at main.py:58-70, which is the iteration order of `all_site_type.items()` and `all_site_info.items()` (main.py:72, 81) from Python 3.7 on. On earlier interpreters the order is arbitrary; the model assumes Python 3.7 or later.
- `Dates.FormatDate`: always writes the year as four digits. `strftime("%Y")` at main.py:150 does so for years 1000-9999; for smaller years some C libraries do not zero-pad, and Python 2 raises `ValueError` before 1900, which escapes the `try` because line 150 is in its `else:` clause. The model assumes Python 3 on a platform that pads years to four digits.
- `train_type` is parsed but not used by the code after parsing. The model stores it and proves what it holds.
