/**
 * The runtime API (`src/api/runtime.ts`): the ADT query-expression builder,
 * the query string of the runtime-dump feed, the dump and system-message
 * requests, and the `YYYYMMDDHHmmss` timestamp format.
 */
module Runtime {

  import opened Js
  import opened Transport

  // ---------------------------------------------------------------------------
  // Query expressions
  // ---------------------------------------------------------------------------

  /** `cs.join(sep)`: the elements in order with `sep` between neighbours. */
  function Join(cs: seq<string>, sep: string): string
    decreases |cs|
  {
    if cs == [] then ""
    else if |cs| == 1 then cs[0]
    else Join(cs[..|cs| - 1], sep) + sep + cs[|cs| - 1]
  }

  /** Joining one more element puts it after a separator, at the end. */
  lemma JoinSnoc(cs: seq<string>, c: string, sep: string)
    requires cs != []
    ensures Join(cs + [c], sep) == Join(cs, sep) + sep + c
  {
    assert (cs + [c])[..|cs|] == cs;
  }

  lemma JoinPair(a: string, b: string, sep: string)
    ensures Join([a, b], sep) == a + sep + b
  {
    assert [a, b][..1] == [a];
  }

  /** The text between `open` and `close` when `s` is exactly `open + inner + close`. */
  function Unwrap(s: string, open: string, close: string): Option<string> {
    if |s| >= |open| + |close| && s[..|open|] == open && s[|s| - |close|..] == close
    then Some(s[|open|..|s| - |close|])
    else None
  }

  lemma UnwrapWrap(open: string, inner: string, close: string)
    ensures Unwrap(open + inner + close, open, close) == Some(inner)
  {
    var s := open + inner + close;
    assert s[..|open|] == open;
    assert s[|s| - |close|..] == close;
    assert s[|open|..|s| - |close|] == inner;
  }

  /** The position of the first `", "` in `s`, if any. */
  function FindComma(s: string): (r: Option<nat>)
    ensures r.Some? ==> r.value + 1 < |s| && s[r.value] == ',' && s[r.value + 1] == ' '
    ensures r.Some? ==> forall i :: 0 <= i < r.value ==> !(s[i] == ',' && s[i + 1] == ' ')
    ensures r.None? ==> forall i :: 0 <= i && i + 1 < |s| ==> !(s[i] == ',' && s[i + 1] == ' ')
    decreases |s|
  {
    if |s| < 2 then None
    else if s[0] == ',' && s[1] == ' ' then Some(0)
    else match FindComma(s[1..])
      case None => None
      case Some(k) => Some(k + 1)
  }

  lemma {:induction false} FindCommaAfter(f: string, rest: string)
    ensures ',' !in f ==> FindComma(f + ", " + rest) == Some(|f|)
    decreases |f|
  {
    var s := f + ", " + rest;
    if f != [] && ',' !in f {
      assert s[1..] == f[1..] + ", " + rest;
      FindCommaAfter(f[1..], rest);
    }
  }

  /** Reads an `equals( field, value )` condition back into its field and value. */
  function ParseEquals(s: string): Option<(string, string)> {
    match Unwrap(s, "equals( ", " )")
    case None => None
    case Some(inner) =>
      match FindComma(inner)
      case None => None
      case Some(k) => Some((inner[..k], inner[k + 2..]))
  }

  /** The ADT query builder: a list of conditions combined by `build`. */
  class QueryBuilder {
    var conditions: seq<string>

    constructor ()
      ensures conditions == []
    {
      conditions := [];
    }

    /** `equals( field, value )`; field and value read back when the field has no comma. */
    static function Equals(field: string, value: string): (r: string)
      ensures ',' !in field ==> ParseEquals(r) == Some((field, value))
    {
      var r := "equals( " + field + ", " + value + " )";
      assert r == "equals( " + (field + ", " + value) + " )";
      UnwrapWrap("equals( ", field + ", " + value, " )");
      FindCommaAfter(field, value);
      var inner := field + ", " + value;
      assert inner[..|field|] == field && inner[|field| + 2..] == value;
      r
    }

    /** `and( c1 c2 ... )`: the conditions in order, separated by one space. */
    static function And(cs: seq<string>): (r: string)
      ensures Unwrap(r, "and( ", " )") == Some(Join(cs, " "))
    {
      UnwrapWrap("and( ", Join(cs, " "), " )");
      "and( " + Join(cs, " ") + " )"
    }

    /** `or( c1 c2 ... )`: the conditions in order, separated by one space. */
    static function Or(cs: seq<string>): (r: string)
      ensures Unwrap(r, "or( ", " )") == Some(Join(cs, " "))
    {
      UnwrapWrap("or( ", Join(cs, " "), " )");
      "or( " + Join(cs, " ") + " )"
    }

    /** `not( c )`. */
    static function Not(c: string): (r: string)
      ensures Unwrap(r, "not( ", " )") == Some(c)
    {
      UnwrapWrap("not( ", c, " )");
      "not( " + c + " )"
    }

    /** `where(c)`: append `c` to the conditions and return the same builder. */
    method Where(condition: string) returns (self: QueryBuilder)
      modifies this
      ensures conditions == old(conditions) + [condition]
      ensures self == this
    {
      conditions := conditions + [condition];
      self := this;
    }

    /**
     * `build()`: nothing for no condition, the sole condition as it is, and
     * the conjunction of all of them, in order, otherwise.
     */
    function Build(): (r: string)
      reads this
      ensures conditions == [] ==> r == ""
      ensures |conditions| == 1 ==> r == conditions[0]
      ensures |conditions| >= 2 ==> Unwrap(r, "and( ", " )") == Some(Join(conditions, " "))
    {
      if |conditions| == 0 then ""
      else if |conditions| == 1 then conditions[0]
      else And(conditions)
    }
  }

  /** Adding a condition to a builder with conditions extends the conjunction at its end. */
  lemma BuildAfterWhere(before: seq<string>, c: string)
    requires before != []
    ensures Unwrap(QueryBuilder.And(before + [c]), "and( ", " )") == Some(Join(before, " ") + " " + c)
  {
    JoinSnoc(before, c, " ");
  }

  /** The chaining example: two `where` calls, then `build`. */
  method ChainedBuild(first: string, second: string) returns (query: string)
    ensures query == "and( " + first + " " + second + " )"
  {
    var builder := new QueryBuilder();
    var b1 := builder.Where(first);
    var b2 := b1.Where(second);
    assert b2.conditions == [first, second];
    query := b2.Build();
    JoinPair(first, second, " ");
    assert query == "and( " + (first + " " + second) + " )";
  }

  // ---------------------------------------------------------------------------
  // Runtime dumps
  // ---------------------------------------------------------------------------

  datatype DumpsOptions = DumpsOptions(
    query: Option<string>,
    top: Option<int>,
    skip: Option<int>,
    inlineCount: Option<bool>,
    from: Option<string>,
    responsible: Option<string>,
    user: Option<string>)

  /** `getDumps(h)` without options: every option `undefined`. */
  const NoDumpsOptions := DumpsOptions(None, None, None, None, None, None, None)

  const FeedHeaders: map<string, string> :=
    map["Accept" := "application/atom+xml;type=feed",
        "X-sap-adt-feed" := "",
        "X-sap-adt-profiling" := "server-time"]

  const DumpHeaders: map<string, string> := map["Accept" := "text/plain"]

  /** What the `$query` parameter of the dump feed holds, if anything. */
  function DumpsFilter(options: DumpsOptions): Option<string> {
    var r := options.responsible;
    var u := options.user;
    if Truthy(options.query) then options.query
    else if Truthy(r) && Truthy(u) then
      Some("and( equals( responsible, " + r.value + " ) equals( user, " + u.value + " ) )")
    else if Truthy(r) then Some("and( equals( responsible, " + r.value + " ) )")
    else if Truthy(u) then Some("and( equals( user, " + u.value + " ) )")
    else None
  }

  /**
   * The query string of `getDumps`: an explicit query wins; otherwise the
   * responsible and user filters, in that order, always inside `and( )`;
   * `$top` and `$skip` only when non-zero; `$inlinecount=allpages` only when
   * asked for; `from` passed through when non-empty.
   */
  ghost predicate DumpsQueryOk(options: DumpsOptions, qs: map<string, Param>) {
    && qs.Keys <= {"$query", "$top", "$skip", "$inlinecount", "from"}
    && ("$query" in qs <==> DumpsFilter(options).Some?)
    && ("$query" in qs ==> qs["$query"] == Str(DumpsFilter(options).value))
    && ("$top" in qs <==> TruthyNum(options.top))
    && ("$top" in qs ==> qs["$top"] == Num(options.top.value))
    && ("$skip" in qs <==> TruthyNum(options.skip))
    && ("$skip" in qs ==> qs["$skip"] == Num(options.skip.value))
    && ("$inlinecount" in qs <==> TruthyBool(options.inlineCount))
    && ("$inlinecount" in qs ==> qs["$inlinecount"] == Str("allpages"))
    && ("from" in qs <==> Truthy(options.from))
    && ("from" in qs ==> qs["from"] == Str(options.from.value))
  }

  /** The `$query` part of the query string alone. */
  function FilterParam(options: DumpsOptions): map<string, Param> {
    match DumpsFilter(options)
    case None => map[]
    case Some(f) => map["$query" := Str(f)]
  }

  lemma AndOne(c: string)
    ensures QueryBuilder.And([c]) == "and( " + c + " )"
  {
  }

  lemma AndTwo(a: string, b: string)
    ensures QueryBuilder.And([a, b]) == "and( " + a + " " + b + " )"
  {
    JoinPair(a, b, " ");
  }

  lemma OrTwo(a: string, b: string)
    ensures QueryBuilder.Or([a, b]) == "or( " + a + " " + b + " )"
  {
    JoinPair(a, b, " ");
  }

  lemma Regroup(a: string, b: string, c: string, d: string, e: string)
    ensures a + (b + c + d) + e == (a + b) + c + (d + e)
  {
  }

  lemma RegroupPair(a: string, b: string, c: string, d: string, e: string, f: string, g: string, k: string)
    ensures a + (b + c + d) + e + (f + g + d) + k == (a + b) + c + (d + e + f) + g + (d + k)
  {
  }

  lemma ResponsibleText()
    ensures "and( " + ("equals( " + "responsible" + ", ") == "and( equals( responsible, "
  {
  }

  lemma UserText()
    ensures "and( " + ("equals( " + "user" + ", ") == "and( equals( user, "
  {
  }

  lemma SecondUserText()
    ensures " )" + " " + ("equals( " + "user" + ", ") == " ) equals( user, "
  {
  }

  lemma CloseText()
    ensures " )" + " )" == " ) )"
  {
  }

  lemma AndEqualsResponsible(r: string)
    ensures QueryBuilder.And([QueryBuilder.Equals("responsible", r)]) == "and( equals( responsible, " + r + " ) )"
  {
    AndOne(QueryBuilder.Equals("responsible", r));
    Regroup("and( ", "equals( " + "responsible" + ", ", r, " )", " )");
    ResponsibleText();
    CloseText();
  }

  lemma AndEqualsUser(u: string)
    ensures QueryBuilder.And([QueryBuilder.Equals("user", u)]) == "and( equals( user, " + u + " ) )"
  {
    AndOne(QueryBuilder.Equals("user", u));
    Regroup("and( ", "equals( " + "user" + ", ", u, " )", " )");
    UserText();
    CloseText();
  }

  lemma AndEqualsTwo(r: string, u: string)
    ensures QueryBuilder.And([QueryBuilder.Equals("responsible", r), QueryBuilder.Equals("user", u)])
            == "and( equals( responsible, " + r + " ) equals( user, " + u + " ) )"
  {
    AndTwo(QueryBuilder.Equals("responsible", r), QueryBuilder.Equals("user", u));
    RegroupPair("and( ", "equals( " + "responsible" + ", ", r, " )", " ", "equals( " + "user" + ", ", u, " )");
    ResponsibleText();
    SecondUserText();
    CloseText();
  }

  /** The query-string assembly of `getDumps`. */
  method DumpsQuery(options: DumpsOptions) returns (qs: map<string, Param>)
    ensures DumpsQueryOk(options, qs)
  {
    qs := map[];
    if Truthy(options.query) {
      qs := qs["$query" := Str(options.query.value)];
    } else if Truthy(options.responsible) || Truthy(options.user) {
      var conditions: seq<string> := [];
      if Truthy(options.responsible) {
        conditions := conditions + [QueryBuilder.Equals("responsible", options.responsible.value)];
      }
      if Truthy(options.user) {
        conditions := conditions + [QueryBuilder.Equals("user", options.user.value)];
      }
      if |conditions| > 0 {
        qs := qs["$query" := Str(QueryBuilder.And(conditions))];
      }
      ghost var r, u := options.responsible, options.user;
      if Truthy(r) && Truthy(u) {
        assert conditions == [QueryBuilder.Equals("responsible", r.value), QueryBuilder.Equals("user", u.value)];
        AndEqualsTwo(r.value, u.value);
      } else if Truthy(r) {
        assert conditions == [QueryBuilder.Equals("responsible", r.value)];
        AndEqualsResponsible(r.value);
      } else {
        assert conditions == [QueryBuilder.Equals("user", u.value)];
        AndEqualsUser(u.value);
      }
    }
    assert qs == FilterParam(options);
    ghost var filter := qs;
    if TruthyNum(options.top) {
      qs := qs["$top" := Num(options.top.value)];
    }
    if TruthyNum(options.skip) {
      qs := qs["$skip" := Num(options.skip.value)];
    }
    assert qs.Keys <= {"$query", "$top", "$skip"};
    assert "$query" in qs <==> "$query" in filter;
    assert "$query" in qs ==> qs["$query"] == filter["$query"];
    if TruthyBool(options.inlineCount) {
      qs := qs["$inlinecount" := Str("allpages")];
    }
    if Truthy(options.from) {
      qs := qs["from" := Str(options.from.value)];
    }
  }

  /** Without options (`getDumps(h)`) the dump feed is requested with no parameter at all. */
  lemma NoOptionsNoQuery(qs: map<string, Param>)
    requires DumpsQueryOk(NoDumpsOptions, qs)
    ensures qs == map[]
  {
    assert qs.Keys == {};
  }

  /** A single filter is still wrapped in `and( )`, unlike `build` with one condition. */
  lemma SingleFilterWrapped(r: string)
    requires r != ""
    ensures DumpsFilter(DumpsOptions(None, None, None, None, None, Some(r), None))
            == Some(QueryBuilder.And([QueryBuilder.Equals("responsible", r)]))
  {
    AndEqualsResponsible(r);
  }

  /** A feed reply without a `feed` root is rejected ("Invalid feed format"). */
  datatype FeedError = InvalidFeed

  /** `parseDumpsFeed` / `parseSystemMessagesFeed` up to the feed check. */
  function FeedOf(reply: Tree): (r: Result<Tree, FeedError>)
    ensures r.Err? <==> XmlArray(reply, "feed") == []
    ensures r.Ok? ==> r.value == XmlArray(reply, "feed")[0]
  {
    match XmlChild(reply, "feed")
    case None => Err(InvalidFeed)
    case Some(feed) => Ok(feed)
  }

  /** `getDumps`: one GET of the dump feed with the assembled query. */
  method GetDumps(h: AdtHttp, options: DumpsOptions) returns (r: Result<Tree, FeedError>)
    modifies h
    ensures |h.log| == |old(h.log)| + 1 && h.log[..|old(h.log)|] == old(h.log)
    ensures var req := h.log[|old(h.log)|];
            && req.verb == Get && req.endpoint == DumpFeed
            && req.headers == FeedHeaders && req.body == None
            && DumpsQueryOk(options, req.qs)
    ensures r == FeedOf(h.serve(h.log).parsed)
  {
    var qs := DumpsQuery(options);
    var response := h.Request(HttpRequest(Get, DumpFeed, qs, FeedHeaders, None));
    r := FeedOf(response.parsed);
  }

  /** `getDump`: one GET of the dump by id; the reply text as it is. */
  method GetDump(h: AdtHttp, dumpId: string) returns (text: string)
    modifies h
    ensures h.log == old(h.log) + [HttpRequest(Get, DumpResource(dumpId), map[], DumpHeaders, None)]
    ensures text == h.serve(h.log).body
  {
    var response := h.Request(HttpRequest(Get, DumpResource(dumpId), map[], DumpHeaders, None));
    text := response.body;
  }

  /** `getSystemMessages`: one GET of the system-message feed, no query. */
  method GetSystemMessages(h: AdtHttp) returns (r: Result<Tree, FeedError>)
    modifies h
    ensures h.log == old(h.log) + [HttpRequest(Get, SystemMessageFeed, map[], FeedHeaders, None)]
    ensures r == FeedOf(h.serve(h.log).parsed)
  {
    var response := h.Request(HttpRequest(Get, SystemMessageFeed, map[], FeedHeaders, None));
    r := FeedOf(response.parsed);
  }

  // ---------------------------------------------------------------------------
  // Timestamps
  // ---------------------------------------------------------------------------

  /** The UTC components of a `Date`; the month counts from 0, as `getUTCMonth` does. */
  datatype UtcTime = UtcTime(year: int, month: int, day: int, hours: int, minutes: int, seconds: int)

  /** The proleptic Gregorian leap-year rule `Date` follows. */
  predicate IsLeapYear(year: int) {
    year % 4 == 0 && (year % 100 != 0 || year % 400 == 0)
  }

  /** The length of a month (counted from 0) in a given year. */
  function DaysInMonth(year: int, month: int): (n: int)
    requires 0 <= month < 12
    ensures 28 <= n <= 31
    ensures n == 29 <==> month == 1 && IsLeapYear(year)
  {
    if month == 1 then (if IsLeapYear(year) then 29 else 28)
    else if month == 3 || month == 5 || month == 8 || month == 10 then 30
    else 31
  }

  /**
   * The UTC components a `Date` reports: a month from 0 to 11, a day within
   * that month's length, and a time of day.
   */
  predicate ValidTime(t: UtcTime) {
    && 0 <= t.month < 12 && 1 <= t.day <= DaysInMonth(t.year, t.month)
    && 0 <= t.hours < 24 && 0 <= t.minutes < 60 && 0 <= t.seconds < 60
  }

  /** `String(n).padStart(2, '0')`. */
  function Pad2(n: int): string {
    PadStart(IntToString(n), 2, '0')
  }

  /** `formatAdtTimestamp`: the year as it is, then month (from 1), day, hours, minutes, seconds in two digits each. */
  function FormatAdtTimestamp(t: UtcTime): (r: string)
    ensures ValidTime(t) ==> |r| == |IntToString(t.year)| + 10
    ensures ValidTime(t) && 0 <= t.year ==> AllDigits(r)
  {
    FieldsDigits(t);
    IntToString(t.year) + Pad2(t.month + 1) + Pad2(t.day) + Pad2(t.hours) + Pad2(t.minutes) + Pad2(t.seconds)
  }

  /** `Date.UTC` reads a year from 0 to 99 as 1900 to 1999. */
  function FullYear(y: int): int {
    if 0 <= y <= 99 then 1900 + y else y
  }

  /**
   * `parseAdtTimestamp`: the components read with `parseInt` at fixed
   * positions, the month moved to count from 0, as handed to `Date.UTC`.
   * `None` is the invalid date a `NaN` component gives.
   */
  function ParseAdtTimestamp(s: string): Option<UtcTime> {
    var year := ParseInt(Substring(s, 0, 4));
    var month := ParseInt(Substring(s, 4, 6));
    var day := ParseInt(Substring(s, 6, 8));
    var hours := ParseInt(Substring(s, 8, 10));
    var minutes := ParseInt(Substring(s, 10, 12));
    var seconds := ParseInt(Substring(s, 12, 14));
    if year.None? || month.None? || day.None? || hours.None? || minutes.None? || seconds.None? then None
    else Some(UtcTime(FullYear(year.value), month.value - 1, day.value, hours.value, minutes.value, seconds.value))
  }

  /** The year and the five two-digit fields of a timestamp are digit strings. */
  lemma FieldsDigits(t: UtcTime)
    ensures ValidTime(t) ==>
              && |Pad2(t.month + 1)| == 2 && |Pad2(t.day)| == 2 && |Pad2(t.hours)| == 2
              && |Pad2(t.minutes)| == 2 && |Pad2(t.seconds)| == 2
    ensures ValidTime(t) ==>
              && AllDigits(Pad2(t.month + 1)) && AllDigits(Pad2(t.day)) && AllDigits(Pad2(t.hours))
              && AllDigits(Pad2(t.minutes)) && AllDigits(Pad2(t.seconds))
    ensures 0 <= t.year ==> AllDigits(IntToString(t.year))
  {
    if ValidTime(t) {
      ValidTimeBounds(t);
      Pad2Digits(t.month + 1);
      Pad2Digits(t.day);
      Pad2Digits(t.hours);
      Pad2Digits(t.minutes);
      Pad2Digits(t.seconds);
    }
    if 0 <= t.year {
      NatToStringDigits(t.year);
    }
  }

  /** A two-digit field: two digits whose value is the component. */
  lemma Pad2Digits(n: int)
    requires 0 <= n < 100
    ensures |Pad2(n)| == 2 && AllDigits(Pad2(n)) && DecimalValue(Pad2(n)) == n
  {
    NatToStringLength(n);
    DecimalValueOfNatToString(n);
    if n < 10 {
      assert Pad2(n) == "0" + NatToString(n);
      DecimalValueLeadingZero(NatToString(n));
    }
  }

  /** The year of a four-digit year: four digits whose value is the year. */
  lemma YearDigits(y: int)
    requires 1000 <= y <= 9999
    ensures |IntToString(y)| == 4 && AllDigits(IntToString(y)) && DecimalValue(IntToString(y)) == y
  {
    NatToStringLength(y);
    DecimalValueOfNatToString(y);
  }

  /** Each field of a six-part concatenation sits at its fixed offsets. */
  lemma Fields(a: string, b: string, c: string, d: string, e: string, f: string)
    requires |a| == 4 && |b| == 2 && |c| == 2 && |d| == 2 && |e| == 2 && |f| == 2
    ensures var s := a + b + c + d + e + f;
            && |s| == 14
            && Substring(s, 0, 4) == a && Substring(s, 4, 6) == b && Substring(s, 6, 8) == c
            && Substring(s, 8, 10) == d && Substring(s, 10, 12) == e && Substring(s, 12, 14) == f
  {
    var s := a + b + c + d + e + f;
    assert s[0..4] == a;
    assert s[4..6] == b;
    assert s[6..8] == c;
    assert s[8..10] == d;
    assert s[10..12] == e;
    assert s[12..14] == f;
  }

  /** The components `parseAdtTimestamp` hands on, once each field has been read. */
  lemma ParseOfFields(s: string, y: int, mo: int, d: int, h: int, mi: int, se: int)
    requires ParseInt(Substring(s, 0, 4)) == Some(y) && ParseInt(Substring(s, 4, 6)) == Some(mo)
    requires ParseInt(Substring(s, 6, 8)) == Some(d) && ParseInt(Substring(s, 8, 10)) == Some(h)
    requires ParseInt(Substring(s, 10, 12)) == Some(mi) && ParseInt(Substring(s, 12, 14)) == Some(se)
    ensures ParseAdtTimestamp(s) == Some(UtcTime(FullYear(y), mo - 1, d, h, mi, se))
  {
  }

  /** Reading six digit fields back from their concatenation. */
  lemma ParseFields(y: string, mo: string, d: string, h: string, mi: string, se: string)
    requires |y| == 4 && |mo| == 2 && |d| == 2 && |h| == 2 && |mi| == 2 && |se| == 2
    requires AllDigits(y) && AllDigits(mo) && AllDigits(d) && AllDigits(h) && AllDigits(mi) && AllDigits(se)
    ensures ParseAdtTimestamp(y + mo + d + h + mi + se)
            == Some(UtcTime(FullYear(DecimalValue(y)), DecimalValue(mo) - 1, DecimalValue(d),
                            DecimalValue(h), DecimalValue(mi), DecimalValue(se)))
  {
    var s := y + mo + d + h + mi + se;
    Fields(y, mo, d, h, mi, se);
    ParseIntDigits(Substring(s, 0, 4));
    ParseIntDigits(Substring(s, 4, 6));
    ParseIntDigits(Substring(s, 6, 8));
    ParseIntDigits(Substring(s, 8, 10));
    ParseIntDigits(Substring(s, 10, 12));
    ParseIntDigits(Substring(s, 12, 14));
    ParseOfFields(s, DecimalValue(y), DecimalValue(mo), DecimalValue(d), DecimalValue(h), DecimalValue(mi), DecimalValue(se));
  }

  lemma ConcatDigits(a: string, b: string, c: string, d: string, e: string, f: string)
    requires AllDigits(a) && AllDigits(b) && AllDigits(c) && AllDigits(d) && AllDigits(e) && AllDigits(f)
    ensures AllDigits(a + b + c + d + e + f)
  {
  }

  /** Every component after the year fits in two digits. */
  lemma ValidTimeBounds(t: UtcTime)
    requires ValidTime(t)
    ensures 1 <= t.month + 1 <= 12 && 1 <= t.day <= 31
    ensures 0 <= t.hours < 24 && 0 <= t.minutes < 60 && 0 <= t.seconds < 60
  {
  }

  /** For a year from 1000 to 9999 the timestamp is exactly fourteen digits. */
  lemma FormatWidth(t: UtcTime)
    requires ValidTime(t) && 1000 <= t.year <= 9999
    ensures |FormatAdtTimestamp(t)| == 14 && AllDigits(FormatAdtTimestamp(t))
  {
    ValidTimeBounds(t);
    YearDigits(t.year);
    Pad2Digits(t.month + 1);
    Pad2Digits(t.day);
    Pad2Digits(t.hours);
    Pad2Digits(t.minutes);
    Pad2Digits(t.seconds);
    ConcatDigits(IntToString(t.year), Pad2(t.month + 1), Pad2(t.day), Pad2(t.hours), Pad2(t.minutes), Pad2(t.seconds));
  }

  /** A year below 1000 is not padded, so the timestamp is shorter than fourteen characters. */
  lemma FormatShortYear(t: UtcTime)
    requires ValidTime(t) && 0 <= t.year < 1000
    ensures |FormatAdtTimestamp(t)| < 14
  {
    ValidTimeBounds(t);
    NatToStringLength(t.year);
    NatToStringLength(t.month + 1);
    NatToStringLength(t.day);
    NatToStringLength(t.hours);
    NatToStringLength(t.minutes);
    NatToStringLength(t.seconds);
  }

  /** Parsing a formatted timestamp gives back the same UTC components. */
  lemma ParseFormat(t: UtcTime)
    requires ValidTime(t) && 1000 <= t.year <= 9999
    ensures ParseAdtTimestamp(FormatAdtTimestamp(t)) == Some(t)
  {
    var y, mo, d := IntToString(t.year), Pad2(t.month + 1), Pad2(t.day);
    var h, mi, se := Pad2(t.hours), Pad2(t.minutes), Pad2(t.seconds);
    ValidTimeBounds(t);
    YearDigits(t.year);
    Pad2Digits(t.month + 1);
    Pad2Digits(t.day);
    Pad2Digits(t.hours);
    Pad2Digits(t.minutes);
    Pad2Digits(t.seconds);
    ParseFields(y, mo, d, h, mi, se);
  }

  /** `String(n)` of the value of a digit string without a leading zero is that string. */
  lemma {:induction false} NatToStringOfDigits(s: string)
    requires s != [] && AllDigits(s) && (|s| == 1 || s[0] != '0')
    ensures NatToString(DecimalValue(s)) == s
    ensures |s| > 1 ==> DecimalValue(s) >= 10
    decreases |s|
  {
    var n := DecimalValue(s);
    var last := s[|s| - 1];
    if |s| == 1 {
      assert s[..0] == [];
      assert DecimalValue(s[..0]) == 0;
      assert n == DigitValue(s[0]);
      DigitCharValue(s[0]);
    } else {
      var init := s[..|s| - 1];
      NatToStringOfDigits(init);
      LeadingDigitPositive(init);
      assert n == DecimalValue(init) * 10 + DigitValue(last);
      assert n / 10 == DecimalValue(init) && n % 10 == DigitValue(last);
      DigitCharValue(last);
      assert init + [last] == s;
    }
  }

  lemma DigitCharValue(c: char)
    requires IsDigit(c)
    ensures DigitChar(DigitValue(c)) == c
  {
    if c == '0' {} else if c == '1' {} else if c == '2' {} else if c == '3' {} else if c == '4' {}
    else if c == '5' {} else if c == '6' {} else if c == '7' {} else if c == '8' {} else {}
  }

  lemma {:induction false} LeadingDigitPositive(s: string)
    requires s != [] && AllDigits(s) && s[0] != '0'
    ensures DecimalValue(s) >= 1
    decreases |s|
  {
    if |s| > 1 {
      LeadingDigitPositive(s[..|s| - 1]);
    }
  }

  /** Two digits are the padded form of their value. */
  lemma Pad2OfDigits(p: string)
    requires |p| == 2 && AllDigits(p)
    ensures Pad2(DecimalValue(p)) == p
  {
    var v := DecimalValue(p);
    if p[0] == '0' {
      assert p == "0" + p[1..];
      DecimalValueLeadingZero(p[1..]);
      NatToStringOfDigits(p[1..]);
    } else {
      NatToStringOfDigits(p);
    }
  }

  /** A fourteen-digit timestamp whose fields are in range, the day within its month. */
  predicate WellFormedTimestamp(s: string) {
    && |s| == 14 && AllDigits(s) && s[0] != '0'
    && 1 <= DecimalValue(s[4..6]) <= 12
    && 1 <= DecimalValue(s[6..8]) <= DaysInMonth(DecimalValue(s[0..4]), DecimalValue(s[4..6]) - 1)
    && DecimalValue(s[8..10]) < 24 && DecimalValue(s[10..12]) < 60 && DecimalValue(s[12..14]) < 60
  }

  /** Formatting a parsed well-formed timestamp gives back the same text. */
  lemma FormatParse(s: string)
    requires WellFormedTimestamp(s)
    ensures ParseAdtTimestamp(s).Some?
    ensures ValidTime(ParseAdtTimestamp(s).value)
    ensures FormatAdtTimestamp(ParseAdtTimestamp(s).value) == s
  {
    var y, mo, d, h, mi, se := s[0..4], s[4..6], s[6..8], s[8..10], s[10..12], s[12..14];
    assert s == y + mo + d + h + mi + se;
    ParseFields(y, mo, d, h, mi, se);
    NatToStringOfDigits(y);
    Pad2OfDigits(mo);
    Pad2OfDigits(d);
    Pad2OfDigits(h);
    Pad2OfDigits(mi);
    Pad2OfDigits(se);
  }
}

/**
 * The builder and timestamp examples of the runtime tests, worked out
 * against the model.
 */
module RuntimeExamples {

  import opened Js
  import opened Runtime

  // The examples below are each proved from a few small lemmas about string
  // literals (`…Head`, `…Tail`, `…Whole`, `Regroup3`). Those helpers model
  // nothing themselves: they only keep each solver query small.

  lemma EqualsEmptyValue()
    ensures QueryBuilder.Equals("responsible", "") == "equals( responsible,  )"
  {
  }

  lemma EqualsUserEmpty()
    ensures QueryBuilder.Equals("user", "") == "equals( user,  )"
  {
  }

  lemma Regroup3(a: string, b: string, c: string, d: string, e: string)
    ensures a + b + c + d + e == (a + b) + (c + d + e)
  {
  }

  lemma AndHead()
    ensures "and( " + "equals( user,  )" == "and( equals( user,  )"
  {
  }

  lemma AndTail()
    ensures " " + "equals( responsible,  )" + " )" == " equals( responsible,  ) )"
  {
  }

  lemma AndWhole()
    ensures "and( equals( user,  )" + " equals( responsible,  ) )" == "and( equals( user,  ) equals( responsible,  ) )"
  {
  }

  /** Two conditions joined by `and`, in the order given. */
  lemma AndExample()
    ensures QueryBuilder.And([QueryBuilder.Equals("user", ""), QueryBuilder.Equals("responsible", "")])
            == "and( equals( user,  ) equals( responsible,  ) )"
  {
    AndTwo(QueryBuilder.Equals("user", ""), QueryBuilder.Equals("responsible", ""));
    EqualsEmptyValue();
    EqualsUserEmpty();
    Regroup3("and( ", "equals( user,  )", " ", "equals( responsible,  )", " )");
    AndHead();
    AndTail();
    AndWhole();
  }

  lemma EqualsActive()
    ensures QueryBuilder.Equals("status", "ACTIVE") == "equals( status, ACTIVE )"
  {
  }

  lemma EqualsPending()
    ensures QueryBuilder.Equals("status", "PENDING") == "equals( status, PENDING )"
  {
  }

  lemma OrHead()
    ensures "or( " + "equals( status, ACTIVE )" == "or( equals( status, ACTIVE )"
  {
  }

  lemma OrTail()
    ensures " " + "equals( status, PENDING )" + " )" == " equals( status, PENDING ) )"
  {
  }

  lemma OrWhole()
    ensures "or( equals( status, ACTIVE )" + " equals( status, PENDING ) )" == "or( equals( status, ACTIVE ) equals( status, PENDING ) )"
  {
  }

  /** Two conditions joined by `or`, in the order given. */
  lemma OrExample()
    ensures QueryBuilder.Or([QueryBuilder.Equals("status", "ACTIVE"), QueryBuilder.Equals("status", "PENDING")])
            == "or( equals( status, ACTIVE ) equals( status, PENDING ) )"
  {
    OrTwo(QueryBuilder.Equals("status", "ACTIVE"), QueryBuilder.Equals("status", "PENDING"));
    EqualsActive();
    EqualsPending();
    Regroup3("or( ", "equals( status, ACTIVE )", " ", "equals( status, PENDING )", " )");
    OrHead();
    OrTail();
    OrWhole();
  }

  lemma EqualsDeletedStatus()
    ensures QueryBuilder.Equals("status", "DELETED") == "equals( status, DELETED )"
  {
  }

  lemma NotDeletedText()
    ensures "not( " + "equals( status, DELETED )" + " )" == "not( equals( status, DELETED ) )"
  {
  }

  lemma NotDeletedStatus()
    ensures QueryBuilder.Not(QueryBuilder.Equals("status", "DELETED")) == "not( equals( status, DELETED ) )"
  {
    EqualsDeletedStatus();
    NotDeletedText();
  }

  lemma ComplexHead()
    ensures "and( " + "equals( responsible,  )" == "and( equals( responsible,  )"
  {
  }

  lemma ComplexTail()
    ensures " " + "not( equals( status, DELETED ) )" + " )" == " not( equals( status, DELETED ) ) )"
  {
  }

  lemma ComplexWhole()
    ensures "and( equals( responsible,  )" + " not( equals( status, DELETED ) ) )"
            == "and( equals( responsible,  ) not( equals( status, DELETED ) ) )"
  {
  }

  /** A conjunction whose second condition is negated. */
  lemma ComplexExample()
    ensures QueryBuilder.And([QueryBuilder.Equals("responsible", ""), QueryBuilder.Not(QueryBuilder.Equals("status", "DELETED"))])
            == "and( equals( responsible,  ) not( equals( status, DELETED ) ) )"
  {
    AndTwo(QueryBuilder.Equals("responsible", ""), QueryBuilder.Not(QueryBuilder.Equals("status", "DELETED")));
    EqualsEmptyValue();
    NotDeletedStatus();
    Regroup3("and( ", "equals( responsible,  )", " ", "not( equals( status, DELETED ) )", " )");
    ComplexHead();
    ComplexTail();
    ComplexWhole();
  }

  lemma EqualsDeleted()
    ensures QueryBuilder.Equals("deleted", "true") == "equals( deleted, true )"
  {
  }

  lemma NotText()
    ensures "not( " + "equals( deleted, true )" + " )" == "not( equals( deleted, true ) )"
  {
  }

  /** A negated condition. */
  lemma NotExample()
    ensures QueryBuilder.Not(QueryBuilder.Equals("deleted", "true")) == "not( equals( deleted, true ) )"
  {
    EqualsDeleted();
    NotText();
  }

  lemma FormatExample()
    ensures FormatAdtTimestamp(UtcTime(2026, 0, 23, 14, 30, 22)) == "20260123143022"
  {
  }

  /** Single-digit components are padded with a zero. */
  lemma FormatPaddedExample()
    ensures FormatAdtTimestamp(UtcTime(2026, 0, 5, 8, 4, 3)) == "20260105080403"
  {
  }

  lemma FormatMidnightExample()
    ensures FormatAdtTimestamp(UtcTime(2026, 0, 23, 0, 0, 0)) == "20260123000000"
  {
  }

  /** The parse example: January reads as month 0. */
  lemma ParseExample()
    ensures ParseAdtTimestamp("20260123143022") == Some(UtcTime(2026, 0, 23, 14, 30, 22))
  {
    FormatExample();
    ParseFormat(UtcTime(2026, 0, 23, 14, 30, 22));
  }

  lemma ParseMidnightExample()
    ensures ParseAdtTimestamp("20260123000000") == Some(UtcTime(2026, 0, 23, 0, 0, 0))
  {
    FormatMidnightExample();
    ParseFormat(UtcTime(2026, 0, 23, 0, 0, 0));
  }
}
