/**
 * The log index page (`/`): the saved log records whose message contains the
 * search text (ignoring case), ordered by the requested field, ascending or
 * descending. The page reads the store and changes nothing.
 */
module LogViews {
  import opened Wrappers
  import opened Common
  import opened LogModels

  const DEFAULT_SORT_BY := "date_and_time"
  const DEFAULT_ORDER := "desc"

  /** `request.args.get(name, default)`. */
  function Arg(args: map<string, string>, name: string, default: string): string
  {
    if name in args then args[name] else default
  }

  /** The sort expression: the field itself for `asc`, the field with a leading `-` for anything else. */
  function OrderBy(sortBy: string, order: string): (r: string)
    ensures order == "asc" ==> r == sortBy
    ensures order != "asc" ==> |r| == |sortBy| + 1 && r[0] == '-' && r[1..] == sortBy
  {
    if order == "asc" then sortBy else "-" + sortBy
  }

  /** How the query reads a sort expression: one leading `-` means descending, one leading `+` ascending. */
  function ParseOrderBy(orderBy: string): (r: (string, bool))
    ensures |r.0| <= |orderBy|
    ensures r.1 <==> |orderBy| > 0 && orderBy[0] == '-'
    ensures r.0 == orderBy || r.0 == orderBy[1..]
  {
    if |orderBy| > 0 && orderBy[0] == '-' then (orderBy[1..], true)
    else if |orderBy| > 0 && orderBy[0] == '+' then (orderBy[1..], false)
    else (orderBy, false)
  }

  /** For a plain field name, `asc` sorts ascending and anything else descending. */
  lemma OrderOfPlainField(sortBy: string, order: string)
    requires |sortBy| > 0 && sortBy[0] != '-' && sortBy[0] != '+'
    ensures ParseOrderBy(OrderBy(sortBy, order)) == (sortBy, order != "asc")
  {
    if order != "asc" {
      assert ("-" + sortBy)[1..] == sortBy;
    }
  }

  // ---- case-insensitive search ----

  function Lower(c: char): char
  {
    if 'A' <= c <= 'Z' then (c as int + 32) as char else c
  }

  function LowerText(s: string): (r: string)
    ensures |r| == |s|
    ensures forall i :: 0 <= i < |s| ==> r[i] == Lower(s[i])
  {
    seq(|s|, i requires 0 <= i < |s| => Lower(s[i]))
  }

  /** The search text occurs at position `i` of the message, both lower-cased. */
  predicate OccursAt(message: string, search: string, i: nat)
    requires i + |search| <= |message|
  {
    LowerText(message)[i..i + |search|] == LowerText(search)
  }

  /** `message__icontains`: the search text occurs in the message when both are lower-cased. */
  predicate ContainsIgnoringCase(message: string, search: string)
  {
    exists i: nat :: i + |search| <= |message| && OccursAt(message, search, i)
  }

  /** The empty search matches every message. */
  lemma EmptySearchMatchesAll(message: string)
    ensures ContainsIgnoringCase(message, "")
  {
    assert LowerText("") == [];
    assert LowerText(message)[0..0] == [];
    assert OccursAt(message, "", 0);
  }

  /** The records that match the search, in store order. */
  function Matching(records: seq<LogRecord>, search: string): (r: seq<LogRecord>)
    ensures forall x :: x in r <==> x in records && ContainsIgnoringCase(x.message, search)
    ensures |r| <= |records|
  {
    if records == [] then []
    else
      var rest := Matching(records[..|records| - 1], search);
      var last := records[|records| - 1];
      assert forall x :: x in records <==> x in records[..|records| - 1] || x == last;
      if ContainsIgnoringCase(last.message, search) then rest + [last] else rest
  }

  // ---- ordering ----

  /** The value a record is sorted by. */
  datatype SortKey = ByNumber(n: nat) | ByText(s: string)

  /** The declared fields of a log record. */
  datatype Field = Id | LogFile | InfoType | Message | DateAndTime

  /**
   * The field a sort name selects. MongoEngine translates `id` and the
   * primary-key alias `pk` to `_id`, and passes `_id` on unchanged; other
   * names select none.
   */
  function FieldNamed(name: string): Option<Field>
  {
    if name == "id" || name == "pk" || name == "_id" then Some(Id)
    else if name == "log_file" then Some(LogFile)
    else if name == "info_type" then Some(InfoType)
    else if name == "message" then Some(Message)
    else if name == "date_and_time" then Some(DateAndTime)
    else None
  }

  function KeyOf(r: LogRecord, field: Field): SortKey
  {
    match field
    case Id => ByNumber(r.id)
    case LogFile => ByText(r.logFile)
    case InfoType => ByText(r.infoType)
    case Message => ByText(r.message)
    case DateAndTime => ByNumber(r.dateAndTime)
  }

  /** Lexicographic order on texts, character by character. */
  predicate TextLe(a: string, b: string)
  {
    |a| == 0 || (|b| > 0 && (a[0] < b[0] || (a[0] == b[0] && TextLe(a[1..], b[1..]))))
  }

  lemma {:induction false} TextLeTotal(a: string, b: string)
    ensures TextLe(a, b) || TextLe(b, a)
    decreases |a|
  {
    if |a| > 0 && |b| > 0 && a[0] == b[0] {
      TextLeTotal(a[1..], b[1..]);
    }
  }

  lemma {:induction false} TextLeTransitive(a: string, b: string, c: string)
    requires TextLe(a, b) && TextLe(b, c)
    ensures TextLe(a, c)
    decreases |a|
  {
    if |a| > 0 && a[0] == b[0] && b[0] == c[0] {
      TextLeTransitive(a[1..], b[1..], c[1..]);
    }
  }

  /**
   * Two records in the requested order (records of equal key may come in
   * either order; without a declared field every order is accepted).
   */
  predicate InOrder(x: LogRecord, y: LogRecord, field: Option<Field>, descending: bool)
  {
    if field.None? then true
    else if descending then KeyLe(KeyOf(y, field.value), KeyOf(x, field.value))
    else KeyLe(KeyOf(x, field.value), KeyOf(y, field.value))
  }

  predicate KeyLe(a: SortKey, b: SortKey)
  {
    match (a, b)
    case (ByNumber(m), ByNumber(n)) => m <= n
    case (ByText(s), ByText(t)) => TextLe(s, t)
    case _ => true
  }

  lemma InOrderTotal(x: LogRecord, y: LogRecord, field: Option<Field>, descending: bool)
    ensures InOrder(x, y, field, descending) || InOrder(y, x, field, descending)
  {
    if field.Some? && KeyOf(x, field.value).ByText? {
      TextLeTotal(KeyOf(x, field.value).s, KeyOf(y, field.value).s);
    }
  }

  lemma InOrderTransitive(x: LogRecord, y: LogRecord, z: LogRecord, field: Option<Field>, descending: bool)
    requires InOrder(x, y, field, descending) && InOrder(y, z, field, descending)
    ensures InOrder(x, z, field, descending)
  {
    if field.Some? && KeyOf(x, field.value).ByText? {
      var a, b, c := KeyOf(x, field.value).s, KeyOf(y, field.value).s, KeyOf(z, field.value).s;
      if descending {
        TextLeTransitive(c, b, a);
      } else {
        TextLeTransitive(a, b, c);
      }
    }
  }

  predicate Sorted(s: seq<LogRecord>, field: Option<Field>, descending: bool)
  {
    forall i, j :: 0 <= i < j < |s| ==> InOrder(s[i], s[j], field, descending)
  }

  /** Places `x` before the first record it may precede. */
  function Insert(x: LogRecord, s: seq<LogRecord>, field: Option<Field>, descending: bool): (r: seq<LogRecord>)
    ensures multiset(r) == multiset(s) + multiset{x}
    ensures |r| == |s| + 1
  {
    if s == [] then [x]
    else if InOrder(x, s[0], field, descending) then [x] + s
    else
      assert s == [s[0]] + s[1..];
      [s[0]] + Insert(x, s[1..], field, descending)
  }

  /** The ordering the query applies: an insertion sort on the requested field. */
  function SortRecords(s: seq<LogRecord>, field: Option<Field>, descending: bool): (r: seq<LogRecord>)
    ensures multiset(r) == multiset(s)
  {
    if s == [] then []
    else
      assert s == [s[0]] + s[1..];
      Insert(s[0], SortRecords(s[1..], field, descending), field, descending)
  }

  /** Every record of `s` may follow `y`. */
  predicate AllAfter(y: LogRecord, s: seq<LogRecord>, field: Option<Field>, descending: bool)
  {
    forall k :: 0 <= k < |s| ==> InOrder(y, s[k], field, descending)
  }

  lemma {:induction false} InsertKeepsAllAfter(y: LogRecord, x: LogRecord, s: seq<LogRecord>, field: Option<Field>, descending: bool)
    requires AllAfter(y, s, field, descending) && InOrder(y, x, field, descending)
    ensures AllAfter(y, Insert(x, s, field, descending), field, descending)
  {
    if s != [] && !InOrder(x, s[0], field, descending) {
      InsertKeepsAllAfter(y, x, s[1..], field, descending);
      var r := Insert(x, s, field, descending);
      assert r == [s[0]] + Insert(x, s[1..], field, descending);
    }
  }

  /** A sequence is sorted when its head may precede all the rest and the rest is sorted. */
  lemma SortedCons(y: LogRecord, s: seq<LogRecord>, field: Option<Field>, descending: bool)
    requires AllAfter(y, s, field, descending) && Sorted(s, field, descending)
    ensures Sorted([y] + s, field, descending)
  {
    var r := [y] + s;
    forall i, j | 0 <= i < j < |r| ensures InOrder(r[i], r[j], field, descending) {
      if i > 0 {
        assert r[i] == s[i - 1] && r[j] == s[j - 1];
      } else {
        assert r[j] == s[j - 1];
      }
    }
  }

  lemma {:induction false} InsertSorted(x: LogRecord, s: seq<LogRecord>, field: Option<Field>, descending: bool)
    requires Sorted(s, field, descending)
    ensures Sorted(Insert(x, s, field, descending), field, descending)
  {
    if s == [] {
    } else if InOrder(x, s[0], field, descending) {
      forall k | 0 <= k < |s| ensures InOrder(x, s[k], field, descending) {
        if k > 0 {
          InOrderTransitive(x, s[0], s[k], field, descending);
        }
      }
      SortedCons(x, s, field, descending);
    } else {
      InOrderTotal(x, s[0], field, descending);
      assert Sorted(s[1..], field, descending) by {
        forall i, j | 0 <= i < j < |s[1..]| ensures InOrder(s[1..][i], s[1..][j], field, descending) {
          assert s[1..][i] == s[i + 1] && s[1..][j] == s[j + 1];
        }
      }
      assert AllAfter(s[0], s[1..], field, descending) by {
        forall k | 0 <= k < |s[1..]| ensures InOrder(s[0], s[1..][k], field, descending) {
          assert s[1..][k] == s[k + 1];
        }
      }
      InsertSorted(x, s[1..], field, descending);
      InsertKeepsAllAfter(s[0], x, s[1..], field, descending);
      SortedCons(s[0], Insert(x, s[1..], field, descending), field, descending);
    }
  }

  /** The sort puts the records in the requested order. */
  lemma {:induction false} SortRecordsSorted(s: seq<LogRecord>, field: Option<Field>, descending: bool)
    ensures Sorted(SortRecords(s, field, descending), field, descending)
  {
    if s != [] {
      SortRecordsSorted(s[1..], field, descending);
      InsertSorted(s[0], SortRecords(s[1..], field, descending), field, descending);
    }
  }

  /** Without a declared field the sort keeps the records where they are. */
  lemma {:induction false} SortWithoutFieldKeepsOrder(s: seq<LogRecord>, descending: bool)
    ensures SortRecords(s, None, descending) == s
  {
    if s != [] {
      SortWithoutFieldKeepsOrder(s[1..], descending);
      assert s == [s[0]] + s[1..];
    }
  }

  // ---- the page ----

  /**
   * A lone `-` or `+` leaves the empty field name, which the query passes on
   * and MongoDB refuses: the page cannot be rendered. (An empty sort
   * expression is skipped instead and the records keep their order.)
   */
  predicate EmptySortKey(orderBy: string)
  {
    |orderBy| > 0 && ParseOrderBy(orderBy).0 == ""
  }

  /** What the page renders: the records and the three arguments as read. */
  datatype LogsPage = LogsPage(logs: seq<LogRecord>, sortBy: string, order: string, search: string)

  /**
   * `logs()`: read the arguments, build the sort expression, run the query.
   * `None` is a query MongoDB refuses, which fails the request (500).
   */
  function Logs(records: seq<LogRecord>, args: map<string, string>): (r: Option<LogsPage>)
    ensures r.None? <==> EmptySortKey(OrderBy(Arg(args, "sort_by", DEFAULT_SORT_BY), Arg(args, "order", DEFAULT_ORDER)))
    ensures r.Some? ==>
      && r.value.sortBy == Arg(args, "sort_by", DEFAULT_SORT_BY) && r.value.order == Arg(args, "order", DEFAULT_ORDER)
      && r.value.search == Arg(args, "search", "")
      && multiset(r.value.logs) == multiset(Matching(records, r.value.search))
  {
    var sortBy := Arg(args, "sort_by", DEFAULT_SORT_BY);
    var order := Arg(args, "order", DEFAULT_ORDER);
    var search := Arg(args, "search", "");
    if EmptySortKey(OrderBy(sortBy, order)) then None
    else
      var (name, descending) := ParseOrderBy(OrderBy(sortBy, order));
      Some(LogsPage(SortRecords(Matching(records, search), FieldNamed(name), descending), sortBy, order, search))
  }

  /**
   * Unless the sort expression leaves the empty field name, the page lists
   * exactly the matching records, each as often as it is saved, in the order
   * the arguments request; a name that selects no field keeps the store's
   * order.
   */
  lemma LogsAreTheMatchingRecordsInOrder(records: seq<LogRecord>, args: map<string, string>)
    ensures Logs(records, args).None? <==>
      EmptySortKey(OrderBy(Arg(args, "sort_by", DEFAULT_SORT_BY), Arg(args, "order", DEFAULT_ORDER)))
    ensures Logs(records, args).Some? ==>
      var page := Logs(records, args).value;
      var (name, descending) := ParseOrderBy(OrderBy(page.sortBy, page.order));
      && multiset(page.logs) == multiset(Matching(records, page.search))
      && (forall x :: x in page.logs <==> x in records && ContainsIgnoringCase(x.message, page.search))
      && Sorted(page.logs, FieldNamed(name), descending)
      && (FieldNamed(name).None? ==> page.logs == Matching(records, page.search))
  {
    if Logs(records, args).Some? {
      var page := Logs(records, args).value;
      var (name, descending) := ParseOrderBy(OrderBy(page.sortBy, page.order));
      SortRecordsSorted(Matching(records, page.search), FieldNamed(name), descending);
      if FieldNamed(name).None? {
        SortWithoutFieldKeepsOrder(Matching(records, page.search), descending);
      }
      forall x ensures x in page.logs <==> x in Matching(records, page.search) {
        assert x in page.logs <==> x in multiset(page.logs);
      }
    }
  }

  /** `id`, `pk` and `_id` all sort by the record id, in the requested direction. */
  lemma PrimaryKeyNamesSortById(records: seq<LogRecord>, sortBy: string, order: string)
    requires sortBy == "id" || sortBy == "pk" || sortBy == "_id"
    ensures var page := Logs(records, map["sort_by" := sortBy, "order" := order]);
      page.Some? && Sorted(page.value.logs, Some(Id), order != "asc")
  {
    OrderOfPlainField(sortBy, order);
    assert !EmptySortKey(OrderBy(sortBy, order));
    SortRecordsSorted(Matching(records, ""), Some(Id), order != "asc");
  }

  /** With `asc`, an empty `sort_by` is no sort at all; with any other order it is a refused query. */
  lemma EmptySortBy(records: seq<LogRecord>, order: string)
    ensures var page := Logs(records, map["sort_by" := "", "order" := order]);
      && (order == "asc" ==> page.Some? && page.value.logs == Matching(records, ""))
      && (order != "asc" ==> page.None?)
  {
    if order == "asc" {
      SortWithoutFieldKeepsOrder(Matching(records, ""), false);
    } else {
      assert OrderBy("", order) == "-";
    }
  }

  /** Without arguments the query sorts on `date_and_time`, descending, and searches for the empty text. */
  lemma DefaultArguments(records: seq<LogRecord>)
    ensures Logs(records, map[]) == Some(LogsPage(SortRecords(Matching(records, ""), Some(DateAndTime), true), DEFAULT_SORT_BY, DEFAULT_ORDER, ""))
  {
    OrderOfPlainField(DEFAULT_SORT_BY, DEFAULT_ORDER);
    assert !EmptySortKey(OrderBy(DEFAULT_SORT_BY, DEFAULT_ORDER));
    assert FieldNamed(DEFAULT_SORT_BY) == Some(DateAndTime);
  }

  predicate NewestFirst(s: seq<LogRecord>)
  {
    forall i, j :: 0 <= i < j < |s| ==> s[i].dateAndTime >= s[j].dateAndTime
  }

  /** With no arguments the page lists every record, newest first. */
  lemma DefaultPageIsNewestFirst(records: seq<LogRecord>)
    ensures Logs(records, map[]).Some?
    ensures multiset(Logs(records, map[]).value.logs) == multiset(records)
    ensures NewestFirst(Logs(records, map[]).value.logs)
  {
    DefaultArguments(records);
    MatchingAll(records);
    SortedNewestFirst(records);
  }

  lemma SortedNewestFirst(records: seq<LogRecord>)
    ensures NewestFirst(SortRecords(records, Some(DateAndTime), true))
  {
    var logs := SortRecords(records, Some(DateAndTime), true);
    SortRecordsSorted(records, Some(DateAndTime), true);
    forall i, j | 0 <= i < j < |logs| ensures logs[i].dateAndTime >= logs[j].dateAndTime {
      assert InOrder(logs[i], logs[j], Some(DateAndTime), true);
    }
  }

  lemma {:induction false} MatchingAll(records: seq<LogRecord>)
    ensures Matching(records, "") == records
  {
    if records != [] {
      MatchingAll(records[..|records| - 1]);
      EmptySearchMatchesAll(records[|records| - 1].message);
      assert records[..|records| - 1] + [records[|records| - 1]] == records;
    }
  }

  /**
   * A `sort_by` that itself starts with `-` turns the order around: with
   * `order=asc` the records come out descending (a lone `-` is a refused query).
   */
  lemma LeadingMinusReverses(records: seq<LogRecord>, field: string)
    ensures var page := Logs(records, map["sort_by" := "-" + field, "order" := "asc"]);
      && (field == "" ==> page.None?)
      && (field != "" ==> page.Some? && Sorted(page.value.logs, FieldNamed(field), true))
  {
    assert OrderBy("-" + field, "asc") == "-" + field;
    assert ("-" + field)[1..] == field;
    SortRecordsSorted(Matching(records, ""), FieldNamed(field), true);
  }
}
