/**
The operations log: worker attempts and audit entries merged into one feed, newest
first. The severity filter is pushed into SQL, where comparisons with NULL are
neither true nor false; source and text filters run over an over-fetched window.
*/
module OpsLogs {
  import opened Common

  datatype Severity = ERROR | WARNING | INFO

  const SEVERITIES: set<Severity> := {ERROR, WARNING, INFO}

  datatype Source = Attempt | Audit

  datatype LogRow =
    | AttemptRow(at: int, resource: string, status: string, message: string)
    | AuditRow(at: int, caller: Option<string>, result: Option<int>,
               message: string, command: string, actor: Option<string>)

  function SourceOf(row: LogRow): Source {
    if row.AttemptRow? then Attempt else Audit
  }

  /** Case folding and trimming, the same in SQL and in the service. */
  datatype Text = Text(lower: string -> string, strip: string -> string)

  predicate Contains(s: string, part: string) {
    exists i | 0 <= i <= |s| :: part <= s[i..]
  }

  // ---- severity, as the service computes it -----------------------------------------------

  const FAILED: seq<string> := ["submit_error", "outcome_error", "timeout", "abandoned"]
  const QUIET: seq<string> := ["pending", "claimed", "in_flight", "success"]

  function AttemptSeverity(status: string, text: Text): Severity {
    var s := text.lower(status);
    if s in FAILED || Contains(s, "error") || Contains(s, "fail") then ERROR
    else if s in QUIET then INFO
    else WARNING
  }

  function AuditSeverity(result: Option<int>): Severity {
    match result
    case None => INFO
    case Some(n) => if n >= 500 then ERROR else if n >= 400 then WARNING else INFO
  }

  function SeverityOf(row: LogRow, text: Text): Severity {
    match row
    case AttemptRow(_, _, status, _) => AttemptSeverity(status, text)
    case AuditRow(_, _, result, _, _, _) => AuditSeverity(result)
  }

  // ---- SQL conditions ------------------------------------------------------------------------

  datatype Truth = No | Unknown | Yes

  datatype Sql =
    | StatusIn(names: seq<string>)
    | StatusLike(part: string)
    | ResultIsNull
    | ResultAtLeast(bound: int)
    | ResultBelow(bound: int)
    | Since(at: int)
    | ResourceIs(name: string)
    | Negate(inner: Sql)
    | Both(left: Sql, right: Sql)
    | Either(left: Sql, right: Sql)

  function Known(b: bool): Truth {
    if b then Yes else No
  }

  /** The value of a condition on a row; a column the row does not have is NULL. */
  function Holds(c: Sql, row: LogRow, text: Text): Truth {
    match c
    case StatusIn(names) => if row.AttemptRow? then Known(text.lower(row.status) in names) else Unknown
    case StatusLike(part) => if row.AttemptRow? then Known(Contains(text.lower(row.status), part)) else Unknown
    case ResultIsNull => Known(row.AttemptRow? || row.result.None?)
    case ResultAtLeast(n) => if row.AuditRow? && row.result.Some? then Known(row.result.value >= n) else Unknown
    case ResultBelow(n) => if row.AuditRow? && row.result.Some? then Known(row.result.value < n) else Unknown
    case Since(at) => Known(row.at >= at)
    case ResourceIs(name) => (
      match row
      case AttemptRow(_, resource, _, _) => Known(resource == name)
      case AuditRow(_, caller, _, _, _, _) => if caller.Some? then Known(caller.value == name) else Unknown
    )
    case Negate(p) => (match Holds(p, row, text) case No => Yes case Yes => No case Unknown => Unknown)
    case Both(p, q) =>
      var a, b := Holds(p, row, text), Holds(q, row, text);
      if a.No? || b.No? then No else if a.Yes? && b.Yes? then Yes else Unknown
    case Either(p, q) =>
      var a, b := Holds(p, row, text), Holds(q, row, text);
      if a.Yes? || b.Yes? then Yes else if a.No? && b.No? then No else Unknown
  }

  const ATTEMPT_ERROR: Sql := Either(Either(StatusIn(FAILED), StatusLike("error")), StatusLike("fail"))
  const ATTEMPT_INFO: Sql := StatusIn(QUIET)

  function Joined(parts: seq<Sql>): Sql
    requires parts != []
  {
    if |parts| == 1 then parts[0] else Either(Joined(parts[..|parts| - 1]), parts[|parts| - 1])
  }

  ghost predicate Accepts(parts: seq<Sql>, row: LogRow, text: Text) {
    exists i :: 0 <= i < |parts| && Holds(parts[i], row, text).Yes?
  }

  lemma {:induction false} JoinedAccepts(parts: seq<Sql>, row: LogRow, text: Text)
    requires parts != []
    ensures Holds(Joined(parts), row, text).Yes? <==> Accepts(parts, row, text)
  {
    if |parts| > 1 {
      var init := parts[..|parts| - 1];
      JoinedAccepts(init, row, text);
      if Accepts(init, row, text) {
        var i :| 0 <= i < |init| && Holds(init[i], row, text).Yes?;
        assert parts[i] == init[i];
      }
    }
  }

  function SeverityParts(severity: set<Severity>, kind: Source): seq<Sql> {
    match kind
    case Attempt =>
      (if ERROR in severity then [ATTEMPT_ERROR] else [])
      + (if INFO in severity then [ATTEMPT_INFO] else [])
      + (if WARNING in severity then [Both(Negate(ATTEMPT_ERROR), Negate(ATTEMPT_INFO))] else [])
    case Audit =>
      (if ERROR in severity then [Both(Negate(ResultIsNull), ResultAtLeast(500))] else [])
      + (if WARNING in severity then [Both(Both(Negate(ResultIsNull), ResultAtLeast(400)), ResultBelow(500))] else [])
      + (if INFO in severity then [Either(ResultIsNull, ResultBelow(400))] else [])
  }

  /** No condition is pushed for a missing, a complete or an empty set of severities. */
  function SeverityCondition(severity: Option<set<Severity>>, kind: Source): Option<Sql> {
    if severity.None? || severity.value >= SEVERITIES then None
    else
      var parts := SeverityParts(severity.value, kind);
      if parts == [] then None else Some(Joined(parts))
  }

  method SeveritySqlPredicate(severity: Option<set<Severity>>, kind: Source) returns (condition: Option<Sql>)
    ensures condition == SeverityCondition(severity, kind)
  {
    if severity.None? || severity.value >= SEVERITIES {
      return None;
    }
    var parts: seq<Sql> := [];
    if kind == Attempt {
      if ERROR in severity.value {
        parts := parts + [ATTEMPT_ERROR];
      }
      if INFO in severity.value {
        parts := parts + [ATTEMPT_INFO];
      }
      if WARNING in severity.value {
        parts := parts + [Both(Negate(ATTEMPT_ERROR), Negate(ATTEMPT_INFO))];
      }
    } else {
      if ERROR in severity.value {
        parts := parts + [Both(Negate(ResultIsNull), ResultAtLeast(500))];
      }
      if WARNING in severity.value {
        parts := parts + [Both(Both(Negate(ResultIsNull), ResultAtLeast(400)), ResultBelow(500))];
      }
      if INFO in severity.value {
        parts := parts + [Either(ResultIsNull, ResultBelow(400))];
      }
    }
    assert parts == SeverityParts(severity.value, kind);
    if parts == [] {
      return None;
    }
    condition := Some(Joined(parts));
  }

  lemma AttemptParts(row: LogRow, text: Text)
    requires row.AttemptRow?
    ensures Holds(ATTEMPT_ERROR, row, text) == Known(SeverityOf(row, text).ERROR?)
    ensures Holds(Both(Negate(ATTEMPT_ERROR), Negate(ATTEMPT_INFO)), row, text) == Known(SeverityOf(row, text).WARNING?)
    ensures Holds(ATTEMPT_INFO, row, text).Yes? && !SeverityOf(row, text).INFO? ==> SeverityOf(row, text).ERROR?
    ensures SeverityOf(row, text).INFO? ==> Holds(ATTEMPT_INFO, row, text).Yes?
  {
    var s := text.lower(row.status);
    assert Holds(Either(StatusIn(FAILED), StatusLike("error")), row, text)
        == Known(s in FAILED || Contains(s, "error"));
    assert Holds(StatusLike("fail"), row, text) == Known(Contains(s, "fail"));
    assert Holds(Negate(ATTEMPT_ERROR), row, text) == Known(!SeverityOf(row, text).ERROR?);
    assert Holds(Negate(ATTEMPT_INFO), row, text) == Known(s !in QUIET);
  }

  lemma StartsWith(part: string, s: string, i: nat)
    requires i <= |s| && part <= s[i..] && |part| >= 2
    ensures i + 1 < |s| && s[i] == part[0] && s[i + 1] == part[1]
  {
    assert s[i..][0] == part[0] && s[i..][1] == part[1];
  }

  /** None of the quiet statuses mentions an error or a failure, so no status is both. */
  lemma QuietIsNotFailed(s: string)
    requires s in QUIET
    ensures !(s in FAILED || Contains(s, "error") || Contains(s, "fail"))
  {
    assert |"pending"| == 7 && |"claimed"| == 7 && |"in_flight"| == 9 && |"success"| == 7;
    assert |"submit_error"| == 12 && |"outcome_error"| == 13 && |"abandoned"| == 9 && |"timeout"| == 7;
    assert "abandoned"[0] == 'a' && "timeout"[0] == 't' && s[0] != 'a' && s[0] != 't';
    forall i | 0 <= i <= |s| ensures !("error" <= s[i..]) && !("fail" <= s[i..]) {
      if "error" <= s[i..] {
        StartsWith("error", s, i);
      }
      if "fail" <= s[i..] {
        StartsWith("fail", s, i);
      }
    }
  }

  /** The pushed condition lets a row through. */
  predicate LetsThrough(severity: set<Severity>, row: LogRow, text: Text) {
    var condition := SeverityCondition(Some(severity), SourceOf(row));
    condition.None? || Holds(condition.value, row, text).Yes?
  }

  /**
   The pushed condition lets a row through exactly when the service's severity is one of
   those asked for; only for the empty set, which pushes nothing, do the two disagree.
   */
  lemma PushdownIsExact(severity: set<Severity>, row: LogRow, text: Text)
    ensures (LetsThrough(severity, row, text) <==> SeverityOf(row, text) in severity) <==> severity != {}
  {
    if severity != {} && !(severity >= SEVERITIES) {
      ProperSetIsExact(severity, row, text);
    }
  }

  lemma ProperSetIsExact(severity: set<Severity>, row: LogRow, text: Text)
    requires severity != {} && !(severity >= SEVERITIES)
    ensures LetsThrough(severity, row, text) <==> SeverityOf(row, text) in severity
  {
    var parts := SeverityParts(severity, SourceOf(row));
    assert ERROR in severity || WARNING in severity || INFO in severity by {
      var x :| x in severity;
      match x {
        case ERROR =>
        case WARNING =>
        case INFO =>
      }
    }
    JoinedAccepts(parts, row, text);
    if row.AttemptRow? {
      AttemptPartsAccept(severity, row, text);
    } else {
      AuditPartsAccept(severity, row, text);
    }
  }

  lemma AttemptPartsAccept(severity: set<Severity>, row: LogRow, text: Text)
    requires row.AttemptRow?
    ensures Accepts(SeverityParts(severity, Attempt), row, text) <==> SeverityOf(row, text) in severity
  {
    var parts := SeverityParts(severity, Attempt);
    AttemptParts(row, text);
    if text.lower(row.status) in QUIET {
      QuietIsNotFailed(text.lower(row.status));
    }
    var e, w := ATTEMPT_ERROR, Both(Negate(ATTEMPT_ERROR), Negate(ATTEMPT_INFO));
    assert e in parts <==> ERROR in severity;
    assert ATTEMPT_INFO in parts <==> INFO in severity;
    assert w in parts <==> WARNING in severity;
    assert forall i | 0 <= i < |parts| :: parts[i] == e || parts[i] == ATTEMPT_INFO || parts[i] == w;
  }

  lemma AuditPartsAccept(severity: set<Severity>, row: LogRow, text: Text)
    requires row.AuditRow?
    ensures Accepts(SeverityParts(severity, Audit), row, text) <==> SeverityOf(row, text) in severity
  {
    var parts := SeverityParts(severity, Audit);
    var e := Both(Negate(ResultIsNull), ResultAtLeast(500));
    var w := Both(Both(Negate(ResultIsNull), ResultAtLeast(400)), ResultBelow(500));
    var q := Either(ResultIsNull, ResultBelow(400));
    assert Holds(Negate(ResultIsNull), row, text) == Known(row.result.Some?);
    assert Holds(e, row, text).Yes? <==> SeverityOf(row, text).ERROR?;
    assert Holds(Both(Negate(ResultIsNull), ResultAtLeast(400)), row, text)
        == Known(row.result.Some? && row.result.value >= 400);
    assert Holds(w, row, text).Yes? <==> SeverityOf(row, text).WARNING?;
    assert Holds(q, row, text).Yes? <==> SeverityOf(row, text).INFO?;
    assert e in parts <==> ERROR in severity;
    assert w in parts <==> WARNING in severity;
    assert q in parts <==> INFO in severity;
    assert forall i | 0 <= i < |parts| :: parts[i] == e || parts[i] == w || parts[i] == q;
  }

  // ---- what the filters mean -----------------------------------------------------------------

  /** The part stands somewhere in the text. */
  ghost predicate Occurs(part: string, s: string) {
    exists before, after: string :: s == before + part + after
  }

  lemma ContainsMeans(s: string, part: string)
    ensures Contains(s, part) <==> Occurs(part, s)
  {
    if Contains(s, part) {
      var i :| 0 <= i <= |s| && part <= s[i..];
      assert s == s[..i] + part + s[i + |part|..];
    }
    if Occurs(part, s) {
      var before, after: string :| s == before + part + after;
      assert s[|before|..] == part + after;
      assert part <= s[|before|..];
    }
  }

  /** The severity of an entry, from the status of an attempt or the response code of an audited call. */
  lemma SeverityExactly(row: LogRow, text: Text)
    ensures row.AttemptRow? ==>
      var s := text.lower(row.status);
      var broken := s in {"submit_error", "outcome_error", "timeout", "abandoned"}
        || Occurs("error", s) || Occurs("fail", s);
      && (SeverityOf(row, text) == ERROR <==> broken)
      && (SeverityOf(row, text) == INFO <==> !broken && s in {"pending", "claimed", "in_flight", "success"})
    ensures row.AuditRow? ==>
      && (SeverityOf(row, text) == ERROR <==> row.result.Some? && row.result.value >= 500)
      && (SeverityOf(row, text) == WARNING <==> row.result.Some? && 400 <= row.result.value < 500)
  {
    if row.AttemptRow? {
      ContainsMeans(text.lower(row.status), "error");
      ContainsMeans(text.lower(row.status), "fail");
    }
  }

  /**
   A text search, unless blank, keeps an attempt when the trimmed lower-case text occurs in its
   message or its job, and an audit entry when it occurs in message, command, caller and actor
   joined by blanks.
   */
  lemma SearchExactly(query: Query, row: LogRow, text: Text)
    ensures Refined(query, row, text) <==>
      && (query.source.None? || (query.source == Some(Attempt) <==> row.AttemptRow?))
      && (query.severity.None? || SeverityOf(row, text) in query.severity.value)
      && (query.q.None? || text.strip(query.q.value) == "" || FoundIn(text.lower(text.strip(query.q.value)), row, text))
  {
    if Needle(query, text).Some? {
      var needle := Needle(query, text).value;
      match row {
        case AttemptRow(_, job, _, message) =>
          ContainsMeans(text.lower(message), needle);
          ContainsMeans(text.lower(job), needle);
        case AuditRow(_, _, _, _, _, _) =>
          ContainsMeans(text.lower(Hay(row)), needle);
      }
    }
  }

  ghost predicate FoundIn(needle: string, row: LogRow, text: Text) {
    match row
    case AttemptRow(_, job, _, message) => Occurs(needle, text.lower(message)) || Occurs(needle, text.lower(job))
    case AuditRow(_, caller, _, message, command, actor) =>
      var name := if caller == None || caller == Some("") then "admin-api" else caller.value;
      var who := if actor.Some? then actor.value else "";
      Occurs(needle, text.lower(message + " " + command + " " + name + " " + who))
  }

  // ---- one page ------------------------------------------------------------------------------

  datatype Query = Query(
    severity: Option<set<Severity>>, resource: Option<string>, source: Option<Source>, q: Option<string>,
    since: Option<int>, limit: nat, offset: nat)

  function Opt(c: Option<Sql>): seq<Sql> {
    match c case None => [] case Some(x) => [x]
  }

  function Clauses(query: Query, kind: Source): seq<Sql> {
    (match query.since case None => [] case Some(t) => [Since(t)])
    + (match query.resource case None => [] case Some(r) => [ResourceIs(r)])
    + Opt(SeverityCondition(query.severity, kind))
  }

  /** A WHERE clause keeps a row when every condition is true of it. */
  predicate Pushed(query: Query, row: LogRow, text: Text) {
    var clauses := Clauses(query, SourceOf(row));
    forall i | 0 <= i < |clauses| :: Holds(clauses[i], row, text).Yes?
  }

  function Needle(query: Query, text: Text): Option<string> {
    match query.q
    case None => None
    case Some(raw) => if text.strip(raw) == "" then None else Some(text.lower(text.strip(raw)))
  }

  /** The name shown for an audit entry: its caller, when it has one. */
  function CallerName(caller: Option<string>): string {
    if caller.None? || caller.value == "" then "admin-api" else caller.value
  }

  /** What a text search of an audit entry looks through. */
  function Hay(row: LogRow): string
    requires row.AuditRow?
  {
    row.message + " " + row.command + " " + CallerName(row.caller) + " "
    + if row.actor.None? then "" else row.actor.value
  }

  predicate Mentions(row: LogRow, needle: string, text: Text) {
    match row
    case AttemptRow(_, job, _, message) => Contains(text.lower(message), needle) || Contains(text.lower(job), needle)
    case AuditRow(_, _, _, _, _, _) => Contains(text.lower(Hay(row)), needle)
  }

  /** What the service still checks on a fetched row. */
  predicate Refined(query: Query, row: LogRow, text: Text) {
    && (query.source.None? || SourceOf(row) == query.source.value)
    && (query.severity.None? || SeverityOf(row, text) in query.severity.value)
    && (Needle(query, text).None? || Mentions(row, Needle(query, text).value, text))
  }

  /** What the caller asked for. */
  predicate Wanted(query: Query, row: LogRow, text: Text) {
    && (query.since.None? || row.at >= query.since.value)
    && (query.resource.None? || match row
        case AttemptRow(_, resource, _, _) => resource == query.resource.value
        case AuditRow(_, caller, _, _, _, _) => caller == query.resource)
    && Refined(query, row, text)
  }

  function Filter(rows: seq<LogRow>, keep: LogRow -> bool): seq<LogRow> {
    if rows == [] then []
    else Filter(rows[..|rows| - 1], keep) + if keep(rows[|rows| - 1]) then [rows[|rows| - 1]] else []
  }

  function Take(rows: seq<LogRow>, n: nat): seq<LogRow> {
    if n < |rows| then rows[..n] else rows
  }

  function Slice(rows: seq<LogRow>, offset: nat, limit: nat): seq<LogRow> {
    if offset < |rows| then Take(rows[offset..], limit) else []
  }

  function FetchLimit(query: Query): nat {
    if (query.limit + query.offset) * 3 < 600 then (query.limit + query.offset) * 3 else 600
  }

  /** The rows the SQL statement returns from the feed, newest first. */
  function Window(feed: seq<LogRow>, query: Query, text: Text): seq<LogRow> {
    Take(Filter(feed, row => Pushed(query, row, text)), FetchLimit(query))
  }

  function Page(feed: seq<LogRow>, query: Query, text: Text): seq<LogRow> {
    Slice(Filter(Window(feed, query, text), row => Refined(query, row, text)), query.offset, query.limit)
  }

  /** The page of the fully filtered feed. */
  function ExactPage(feed: seq<LogRow>, query: Query, text: Text): seq<LogRow> {
    Slice(Filter(feed, row => Wanted(query, row, text)), query.offset, query.limit)
  }

  method FetchOpsLogs(feed: seq<LogRow>, query: Query, text: Text) returns (page: seq<LogRow>)
    ensures page == Page(feed, query, text)
  {
    var rows := Window(feed, query, text);
    var needle := Needle(query, text);
    var entries: seq<LogRow> := [];
    ghost var keep := row => Refined(query, row, text);
    for i := 0 to |rows|
      invariant entries == Filter(rows[..i], keep)
    {
      assert rows[..i + 1][..i] == rows[..i];
      var row := rows[i];
      if query.source.Some? && SourceOf(row) != query.source.value {
        continue;
      }
      if query.severity.Some? && SeverityOf(row, text) !in query.severity.value {
        continue;
      }
      if needle.Some? && !Mentions(row, needle.value, text) {
        continue;
      }
      entries := entries + [row];
    }
    assert rows[..|rows|] == rows;
    page := Slice(entries, query.offset, query.limit);
  }

  lemma ClauseOrder(query: Query, row: LogRow, text: Text)
    ensures Pushed(query, row, text) <==>
      && (query.since.None? || Holds(Since(query.since.value), row, text).Yes?)
      && (query.resource.None? || Holds(ResourceIs(query.resource.value), row, text).Yes?)
      && var c := SeverityCondition(query.severity, SourceOf(row)); c.None? || Holds(c.value, row, text).Yes?
  {
    var clauses := Clauses(query, SourceOf(row));
    var c := SeverityCondition(query.severity, SourceOf(row));
    assert query.since.Some? ==> Since(query.since.value) in clauses;
    assert query.resource.Some? ==> ResourceIs(query.resource.value) in clauses;
    assert c.Some? ==> c.value in clauses;
    assert forall i | 0 <= i < |clauses| ::
      || (query.since.Some? && clauses[i] == Since(query.since.value))
      || (query.resource.Some? && clauses[i] == ResourceIs(query.resource.value))
      || (c.Some? && clauses[i] == c.value);
  }

  /** A row is wanted exactly when SQL lets it through and the service keeps it. */
  lemma WantedSplits(query: Query, row: LogRow, text: Text)
    ensures Wanted(query, row, text) <==> Pushed(query, row, text) && Refined(query, row, text)
  {
    ClauseOrder(query, row, text);
    if query.severity.Some? && query.severity.value != {} && !(query.severity.value >= SEVERITIES) {
      PushdownIsExact(query.severity.value, row, text);
    }
  }

  lemma {:induction false} FilterTwice(rows: seq<LogRow>, p: LogRow -> bool, q: LogRow -> bool, both: LogRow -> bool)
    requires forall row :: both(row) <==> p(row) && q(row)
    ensures Filter(Filter(rows, p), q) == Filter(rows, both)
  {
    if rows != [] {
      var init, last := rows[..|rows| - 1], rows[|rows| - 1];
      FilterTwice(init, p, q, both);
      if p(last) {
        assert (Filter(init, p) + [last])[..|Filter(init, p)|] == Filter(init, p);
      } else {
        assert Filter(rows, p) == Filter(init, p);
      }
    }
  }

  lemma {:induction false} FilterPrefix(rows: seq<LogRow>, n: nat, keep: LogRow -> bool)
    requires n <= |rows|
    ensures Filter(rows[..n], keep) <= Filter(rows, keep)
    decreases |rows|
  {
    if n < |rows| {
      FilterPrefix(rows[..|rows| - 1], n, keep);
      assert rows[..|rows| - 1][..n] == rows[..n];
    } else {
      assert rows[..n] == rows;
    }
  }

  lemma {:induction false} FilterAll(rows: seq<LogRow>, keep: LogRow -> bool)
    requires forall i :: 0 <= i < |rows| ==> keep(rows[i])
    ensures Filter(rows, keep) == rows
  {
    if rows != [] {
      FilterAll(rows[..|rows| - 1], keep);
    }
  }

  lemma {:induction false} FilterKeeps(rows: seq<LogRow>, keep: LogRow -> bool)
    ensures forall i :: 0 <= i < |Filter(rows, keep)| ==> keep(Filter(rows, keep)[i])
  {
    if rows != [] {
      FilterKeeps(rows[..|rows| - 1], keep);
    }
  }

  /** What survives of the window is the beginning of the fully filtered feed. */
  lemma WindowIsPrefix(feed: seq<LogRow>, query: Query, text: Text)
    ensures Filter(Window(feed, query, text), row => Refined(query, row, text))
         <= Filter(feed, row => Wanted(query, row, text))
  {
    var p, r := row => Pushed(query, row, text), row => Refined(query, row, text);
    var w := row => Wanted(query, row, text);
    forall row ensures w(row) <==> p(row) && r(row) {
      WantedSplits(query, row, text);
    }
    FilterTwice(feed, p, r, w);
    var all := Filter(feed, p);
    if FetchLimit(query) < |all| {
      FilterPrefix(all, FetchLimit(query), r);
    }
  }

  /** The page returned is always a beginning of the exact page. */
  lemma PageIsPrefix(feed: seq<LogRow>, query: Query, text: Text)
    ensures Page(feed, query, text) <= ExactPage(feed, query, text)
  {
    WindowIsPrefix(feed, query, text);
  }

  /** How many wanted rows, from the newest, the exact page reaches down to. */
  function Needed(feed: seq<LogRow>, query: Query, text: Text): nat {
    var all := |Filter(feed, row => Wanted(query, row, text))|;
    if query.offset + query.limit < all then query.offset + query.limit else all
  }

  /** How many wanted rows lie within the first rows that SQL lets through: three times the page's end, at most 600. */
  function WantedWithin(feed: seq<LogRow>, query: Query, text: Text): nat {
    var reach := 3 * (query.limit + query.offset);
    |Filter(Take(Filter(feed, row => Pushed(query, row, text)), if reach < 600 then reach else 600),
            row => Wanted(query, row, text))|
  }

  lemma {:induction false} FilterAgree(rows: seq<LogRow>, p: LogRow -> bool, q: LogRow -> bool)
    requires forall i :: 0 <= i < |rows| ==> (p(rows[i]) <==> q(rows[i]))
    ensures Filter(rows, p) == Filter(rows, q)
  {
    if rows != [] {
      FilterAgree(rows[..|rows| - 1], p, q);
    }
  }

  /** On the fetched rows the service's remaining checks decide what is wanted. */
  lemma RefinedIsWanted(feed: seq<LogRow>, query: Query, text: Text)
    ensures |Filter(Window(feed, query, text), row => Refined(query, row, text))| == WantedWithin(feed, query, text)
  {
    var p := row => Pushed(query, row, text);
    var window := Window(feed, query, text);
    FilterKeeps(feed, p);
    forall i | 0 <= i < |window| ensures Refined(query, window[i], text) <==> Wanted(query, window[i], text) {
      assert p(window[i]);
      WantedSplits(query, window[i], text);
    }
    FilterAgree(window, row => Refined(query, row, text), row => Wanted(query, row, text));
  }

  /**
   The page is the exact one exactly when the wanted rows it reaches down to lie within
   the first rows that pass the pushed conditions, or it is past the end.
   */
  lemma PageIsExactWhen(feed: seq<LogRow>, query: Query, text: Text)
    ensures Page(feed, query, text) == ExactPage(feed, query, text) <==>
      Needed(feed, query, text) <= query.offset || Needed(feed, query, text) <= WantedWithin(feed, query, text)
  {
    WindowIsPrefix(feed, query, text);
    RefinedIsWanted(feed, query, text);
    var some := Filter(Window(feed, query, text), row => Refined(query, row, text));
    var all := Filter(feed, row => Wanted(query, row, text));
    SliceOfPrefix(some, all, query.offset, query.limit);
  }

  /** Three audit rows newer than the only attempt fill the window of a page of one attempt, which comes back empty. */
  lemma SourceFilterEmptiesPage(attempt: LogRow, audit: LogRow, text: Text)
    requires attempt.AttemptRow? && audit.AuditRow?
    ensures
      var feed := [audit, audit, audit, attempt];
      var query := Query(None, None, Some(Attempt), None, None, 1, 0);
      Page(feed, query, text) == [] && ExactPage(feed, query, text) == [attempt]
  {
    var feed := [audit, audit, audit, attempt];
    var query := Query(None, None, Some(Attempt), None, None, 1, 0);
    var p, w := row => Pushed(query, row, text), row => Wanted(query, row, text);
    var r := row => Refined(query, row, text);
    FilterAll(feed, p);
    assert Window(feed, query, text) == [audit, audit, audit];
    FilterNone([audit, audit, audit], r);
    FilterNone([audit, audit, audit], w);
    assert feed[..3] == [audit, audit, audit];
    assert Filter(feed, w) == Filter(feed[..3], w) + [attempt];
  }

  lemma {:induction false} FilterNone(rows: seq<LogRow>, keep: LogRow -> bool)
    requires forall i :: 0 <= i < |rows| ==> !keep(rows[i])
    ensures Filter(rows, keep) == []
  {
    if rows != [] {
      FilterNone(rows[..|rows| - 1], keep);
    }
  }

  lemma SliceOfPrefix(some: seq<LogRow>, all: seq<LogRow>, offset: nat, limit: nat)
    requires some <= all
    ensures
      var needed := if offset + limit < |all| then offset + limit else |all|;
      Slice(some, offset, limit) == Slice(all, offset, limit) <==> needed <= offset || needed <= |some|
  {
    var needed := if offset + limit < |all| then offset + limit else |all|;
    assert |Slice(all, offset, limit)| == if needed <= offset then 0 else needed - offset;
    if needed <= offset {
      assert |Slice(some, offset, limit)| == 0;
    } else if needed <= |some| {
      assert Slice(some, offset, limit) == some[offset..needed];
      assert Slice(all, offset, limit) == all[offset..needed];
    }
  }

  lemma PassedIsRefined(query: Query, row: LogRow, text: Text)
    requires query.source.None? && Needle(query, text).None? && query.severity != Some({})
    requires Pushed(query, row, text)
    ensures Refined(query, row, text)
  {
    ClauseOrder(query, row, text);
    if query.severity.Some? && !(query.severity.value >= SEVERITIES) {
      PushdownIsExact(query.severity.value, row, text);
    }
  }

  /** Without source and text filters SQL lets through what is wanted; the empty severity set wants nothing. */
  lemma WantedIsPushed(query: Query, row: LogRow, text: Text)
    requires query.source.None? && Needle(query, text).None?
    ensures Wanted(query, row, text) <==> query.severity != Some({}) && Pushed(query, row, text)
  {
    WantedSplits(query, row, text);
    if query.severity != Some({}) && Pushed(query, row, text) {
      PassedIsRefined(query, row, text);
    }
  }

  lemma WindowReaches(feed: seq<LogRow>, query: Query, text: Text)
    requires query.source.None? && Needle(query, text).None? && query.limit + query.offset <= 600
    ensures Needed(feed, query, text) <= query.offset || Needed(feed, query, text) <= WantedWithin(feed, query, text)
  {
    var p, w := row => Pushed(query, row, text), row => Wanted(query, row, text);
    forall i | 0 <= i < |feed| ensures w(feed[i]) <==> query.severity != Some({}) && p(feed[i]) {
      WantedIsPushed(query, feed[i], text);
    }
    if query.severity == Some({}) {
      FilterNone(feed, w);
    } else {
      FilterAgree(feed, p, w);
      FilterKeeps(feed, w);
      FilterAll(Take(Filter(feed, p), FetchLimit(query)), w);
    }
  }

  /** Without source and text filters every page within the first 600 rows is exact. */
  lemma PageIsExact(feed: seq<LogRow>, query: Query, text: Text)
    requires query.source.None? && Needle(query, text).None? && query.limit + query.offset <= 600
    ensures Page(feed, query, text) == ExactPage(feed, query, text)
  {
    WindowReaches(feed, query, text);
    PageIsExactWhen(feed, query, text);
  }
}
