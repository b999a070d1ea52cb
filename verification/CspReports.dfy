/** Folding a batch of CSP reports into a few log lines without losing count of any. */
module CspReports {
  import opened Basics

  const MAX_LINES_PER_REQUEST: nat := 10

  // ---- The reports in a body ----

  datatype Json = Null | Text(text: string) | Other | List(items: seq<Json>) | Object(fields: map<string, Json>)

  datatype Format = CspReport | ReportsJson

  type Report = map<string, Json>

  /** A field that is there and is not null. */
  function Field(fields: Report, name: string): Option<Json> {
    if name in fields && !fields[name].Null? then Some(fields[name]) else None
  }

  predicate IsViolation(entry: Json) {
    && entry.Object?
    && Field(entry.fields, "type") == Some(Text("csp-violation"))
    && "body" in entry.fields && entry.fields["body"].Object?
  }

  /** The report in a batch entry, with the page's address filled in from the entry when the body has none. */
  function ReportOf(entry: Json): Report
    requires IsViolation(entry)
  {
    var body := entry.fields["body"].fields;
    if Field(body, "documentURL").Some? then body
    else if "url" in entry.fields then body["documentURL" := entry.fields["url"]]
    else body - {"documentURL"}
  }

  function Violations(entries: seq<Json>): seq<Report> {
    if entries == [] then []
    else (if IsViolation(entries[0]) then [ReportOf(entries[0])] else []) + Violations(entries[1..])
  }

  /** None is a body of the wrong shape; a batch with no violation in it is an empty list. */
  function ReportsIn(body: Json, format: Format): Option<seq<Report>> {
    match format
    case CspReport =>
      if body.Object? && "csp-report" in body.fields && body.fields["csp-report"].Object?
      then Some([body.fields["csp-report"].fields]) else None
    case ReportsJson => if body.List? then Some(Violations(body.items)) else None
  }

  // ---- The lines ----

  /** What a report is reduced to; two reports with the same summary are one violation. */
  datatype Violation = Violation(
    directive: string,
    blocked: string,
    document: string,
    source: Option<string>,
    disposition: Option<string>
  )

  // ---- What is kept of a report ----

  const MAX_FIELD_LENGTH: nat := 200

  /** What new URL() makes of an address. */
  datatype Url = Url(protocol: string, origin: string, pathname: string)

  /** None where new URL() throws. */
  type Parser = string -> Option<Url>

  /** /^[a-z][a-z-]{0,39}$/ */
  predicate IsDirective(text: string) {
    && 1 <= |text| <= 40 && 'a' <= text[0] <= 'z'
    && forall i :: 1 <= i < |text| ==> 'a' <= text[i] <= 'z' || text[i] == '-'
  }

  /** /^[a-z][a-z0-9-]{0,31}$/ */
  predicate IsKeyword(text: string) {
    && 1 <= |text| <= 32 && 'a' <= text[0] <= 'z'
    && forall i :: 1 <= i < |text| ==> 'a' <= text[i] <= 'z' || '0' <= text[i] <= '9' || text[i] == '-'
  }

  function Clip(text: string): string { if |text| > MAX_FIELD_LENGTH then text[..MAX_FIELD_LENGTH] else text }

  /** The first of two names the report has the value under. */
  function EitherField(report: Report, name: string, other: string): Option<Json> {
    if Field(report, name).Some? then Field(report, name) else Field(report, other)
  }

  /** .trim().split(/\s+/)[0] */
  function FirstWord(text: string): string { UpToSpace(Trimmed(text)) }

  function UpToSpace(text: string): string {
    if text == "" || IsSpace(text[0] as nat) then "" else [text[0]] + UpToSpace(text[1..])
  }

  function DirectiveName(report: Report): string {
    var effective := EitherField(report, "effectiveDirective", "effective-directive");
    var violated := EitherField(report, "violatedDirective", "violated-directive");
    var name :=
      if effective.Some? && effective.value.Text? then effective.value.text
      else if violated.Some? && violated.value.Text? then FirstWord(violated.value.text)
      else "";
    if IsDirective(name) then name else "unknown"
  }

  predicate IsWebScheme(protocol: string) { protocol in {"http:", "https:", "ws:", "wss:"} }

  predicate IsGiven(value: Option<Json>) { value.Some? && value.value.Text? && value.value.text != "" }

  function OriginOrScheme(value: Option<Json>, parse: Parser): Option<string> {
    if !IsGiven(value) then None
    else
      match parse(value.value.text)
      case None => Some(if IsKeyword(value.value.text) then value.value.text else "unknown")
      case Some(url) => Some(Clip(if IsWebScheme(url.protocol) then url.origin else url.protocol))
  }

  function DocumentPath(value: Option<Json>, parse: Parser): string {
    if !IsGiven(value) then "unknown"
    else
      match parse(value.value.text)
      case None => "unknown"
      case Some(url) => Clip(if url.protocol == "https:" || url.protocol == "http:" then url.pathname else url.protocol)
  }

  function Summarized(report: Report, parse: Parser): Violation {
    var blocked := OriginOrScheme(EitherField(report, "blockedURL", "blocked-uri"), parse);
    var disposition := Field(report, "disposition");
    Violation(
      DirectiveName(report),
      if blocked.Some? then blocked.value else "unknown",
      DocumentPath(EitherField(report, "documentURL", "document-uri"), parse),
      OriginOrScheme(EitherField(report, "sourceFile", "source-file"), parse),
      if disposition in {Some(Text("enforce")), Some(Text("report"))} then Some(disposition.value.text) else None)
  }

  /** Two addresses nothing in the log tells apart: alike up to the origin, or up to the scheme when it is no web address. */
  predicate SameOrigin(a: Option<Json>, b: Option<Json>, parse: Parser) {
    || a == b
    || (IsGiven(a) && IsGiven(b)
        && match (parse(a.value.text), parse(b.value.text))
           case (Some(u), Some(v)) => u.protocol == v.protocol && (IsWebScheme(u.protocol) ==> u.origin == v.origin)
           case (None, None) => !IsKeyword(a.value.text) && !IsKeyword(b.value.text)
           case _ => false)
  }

  /** Two pages nothing in the log tells apart: alike in scheme and path, whatever the host, the query and the fragment. */
  predicate SamePage(a: Option<Json>, b: Option<Json>, parse: Parser) {
    || a == b
    || (IsGiven(a) && IsGiven(b)
        && match (parse(a.value.text), parse(b.value.text))
           case (Some(u), Some(v)) => u.protocol == v.protocol && (u.protocol in {"https:", "http:"} ==> u.pathname == v.pathname)
           case (None, None) => true
           case _ => false)
  }

  /** Reports that agree on the rule, and on origins and the page's path, leave the same line: nothing else is kept. */
  lemma NothingElseIsKept(a: Report, b: Report, parse: Parser)
    requires DirectiveName(a) == DirectiveName(b) && Field(a, "disposition") == Field(b, "disposition")
    requires SameOrigin(EitherField(a, "blockedURL", "blocked-uri"), EitherField(b, "blockedURL", "blocked-uri"), parse)
    requires SameOrigin(EitherField(a, "sourceFile", "source-file"), EitherField(b, "sourceFile", "source-file"), parse)
    requires SamePage(EitherField(a, "documentURL", "document-uri"), EitherField(b, "documentURL", "document-uri"), parse)
    ensures Summarized(a, parse) == Summarized(b, parse)
  {
    hide DirectiveName, IsKeyword, IsWebScheme, Clip, EitherField, Field;
  }

  /** A parsed address keeps its query and its fragment out of its origin and its path. */
  ghost predicate Splits(parse: Parser) {
    forall text :: match parse(text) case None => true case Some(url) => Plain(url.protocol) && Plain(url.origin) && Plain(url.pathname)
  }

  predicate Plain(text: string) { '?' !in text && '#' !in text }

  predicate IsShort(text: string) { |text| <= MAX_FIELD_LENGTH && Plain(text) }

  /** Every field is short, and none holds a query or a fragment, whoever wrote the report. */
  lemma FieldsArePlain(report: Report, parse: Parser)
    requires Splits(parse)
    ensures
      var v := Summarized(report, parse);
      && (v.directive == "unknown" || IsDirective(v.directive))
      && IsShort(v.directive) && IsShort(v.blocked) && IsShort(v.document) && (v.source.Some? ==> IsShort(v.source.value))
      && (v.disposition.Some? ==> v.disposition.value in {"enforce", "report"})
  {
    OriginsArePlain(EitherField(report, "blockedURL", "blocked-uri"), parse);
    OriginsArePlain(EitherField(report, "sourceFile", "source-file"), parse);
    PathsArePlain(EitherField(report, "documentURL", "document-uri"), parse);
    if IsDirective(DirectiveName(report)) { DirectivesArePlain(DirectiveName(report)); }
    assert IsShort("unknown");
    hide OriginOrScheme, DocumentPath, EitherField, Splits, IsDirective, IsShort;
  }

  lemma DirectivesArePlain(name: string)
    requires IsDirective(name)
    ensures IsShort(name)
  {
  }

  lemma OriginsArePlain(value: Option<Json>, parse: Parser)
    requires Splits(parse)
    ensures OriginOrScheme(value, parse).Some? ==>
      IsShort(OriginOrScheme(value, parse).value)
  {
    if IsGiven(value) && parse(value.value.text).Some? {
      assert Plain(parse(value.value.text).value.origin);
    }
  }

  lemma PathsArePlain(value: Option<Json>, parse: Parser)
    requires Splits(parse)
    ensures IsShort(DocumentPath(value, parse))
  {
    if IsGiven(value) && parse(value.value.text).Some? {
      assert Plain(parse(value.value.text).value.pathname);
    }
  }

  // ---- Which reports, and which of their fields ----

  /** On the entry: a violation, with something to report in its body. */
  predicate ReportsViolation(entry: Json) {
    && entry.Object?
    && "type" in entry.fields && entry.fields["type"] == Text("csp-violation")
    && "body" in entry.fields && entry.fields["body"].Object?
  }

  /** The body as it stands, but that a page it does not name is the entry's. */
  ghost predicate IsReportOf(entry: Json, report: Report)
    requires ReportsViolation(entry)
  {
    var body := entry.fields["body"].fields;
    && (forall name :: name != "documentURL" ==>
      (name in report <==> name in body) && (name in body ==> report[name] == body[name]))
    && if "documentURL" in body && body["documentURL"] != Null
       then "documentURL" in report && report["documentURL"] == body["documentURL"]
       else if "url" in entry.fields
       then "documentURL" in report && report["documentURL"] == entry.fields["url"]
       else "documentURL" !in report
  }

  lemma ViolationsFirst(entries: seq<Json>)
    requires entries != []
    ensures Violations(entries) == Violations(entries[..1]) + Violations(entries[1..])
    ensures Violations(entries[..1]) == if IsViolation(entries[0]) then [ReportOf(entries[0])] else []
  {
    assert entries[..1][1..] == [];
    hide IsViolation, ReportOf;
  }

  lemma Associates(a: seq<Report>, b: seq<Report>, c: seq<Report>)
    ensures (a + b) + c == a + (b + c)
  {
  }

  lemma {:induction false} ViolationsOfParts(a: seq<Json>, b: seq<Json>)
    ensures Violations(a + b) == Violations(a) + Violations(b)
  {
    if a == [] {
      assert a + b == b;
    } else {
      ViolationsFirst(a);
      ViolationsFirst(a + b);
      assert (a + b)[1..] == a[1..] + b && (a + b)[..1] == a[..1];
      hide Violations;
      ViolationsOfParts(a[1..], b);
      Associates(Violations(a[..1]), Violations(a[1..]), Violations(b));
    }
  }

  /** A report-uri body holds its one report; a batch holds that of each entry that is a violation, in order; nothing else holds any. */
  lemma WhatABodyHolds(body: Json)
    ensures ReportsIn(body, CspReport).Some? <==> body.Object? && "csp-report" in body.fields && body.fields["csp-report"].Object?
    ensures ReportsIn(body, CspReport).Some? ==> ReportsIn(body, CspReport).value == [body.fields["csp-report"].fields]
    ensures ReportsIn(body, ReportsJson).Some? <==> body.List?
  {
  }

  lemma ReportIsOf(entry: Json)
    requires ReportsViolation(entry)
    ensures IsReportOf(entry, ReportOf(entry))
  {
  }

  lemma WhatABatchHolds(a: seq<Json>, entry: Json, b: seq<Json>)
    ensures ReportsIn(List([]), ReportsJson) == Some([])
    ensures !ReportsViolation(entry) ==> ReportsIn(List(a + [entry] + b), ReportsJson) == ReportsIn(List(a + b), ReportsJson)
    ensures ReportsViolation(entry) ==>
      var before, after := ReportsIn(List(a), ReportsJson).value, ReportsIn(List(b), ReportsJson).value;
      var all := ReportsIn(List(a + [entry] + b), ReportsJson).value;
      && |all| == |before| + 1 + |after| && all[..|before|] == before && all[|before| + 1..] == after
      && IsReportOf(entry, all[|before|])
  {
    ViolationsOfParts(a + [entry], b);
    ViolationsOfParts(a, [entry]);
    ViolationsOfParts(a, b);
    ViolationsFirst([entry]);
    assert [entry][..1] == [entry];
    assert IsViolation(entry) <==> ReportsViolation(entry);
    if ReportsViolation(entry) { ReportIsOf(entry); }
    assert Violations([]) == [] && Violations(a) + [] == Violations(a);
    hide Violations, IsViolation, ReportsViolation, ReportOf, IsReportOf;
  }

  /** The report says this under the first of the two names, or under the second when the first is absent or null. */
  predicate Says(report: Report, name: string, other: string, text: string) {
    || (name in report && report[name] == Text(text))
    || ((name !in report || report[name] == Null) && other in report && report[other] == Text(text))
  }

  ghost predicate SaysNothing(report: Report, name: string, other: string) {
    forall text :: Says(report, name, other, text) ==> text == ""
  }

  /** At most two hundred characters of it. */
  predicate CutTo(text: string, shown: string) { shown <= text && |shown| == Min(|text|, 200) }

  /** A web address shows its origin, another one its scheme; what is no address shows itself if it is a keyword. */
  predicate ShowsOrigin(text: string, parse: Parser, shown: string) {
    match parse(text)
    case Some(url) => CutTo(if url.protocol in {"http:", "https:", "ws:", "wss:"} then url.origin else url.protocol, shown)
    case None => if IsKeyword(text) then shown == text else shown == "unknown"
  }

  predicate ShowsPath(text: string, parse: Parser, shown: string) {
    match parse(text)
    case Some(url) => CutTo(if url.protocol in {"http:", "https:"} then url.pathname else url.protocol, shown)
    case None => shown == "unknown"
  }

  lemma EitherSays(report: Report, name: string, other: string, text: string)
    ensures Says(report, name, other, text) <==> EitherField(report, name, other) == Some(Text(text))
  {
  }

  lemma EitherSaysNothing(report: Report, name: string, other: string)
    ensures SaysNothing(report, name, other) <==> !IsGiven(EitherField(report, name, other))
  {
    hide Says, EitherField;
    var value := EitherField(report, name, other);
    forall text ensures Says(report, name, other, text) <==> value == Some(Text(text)) { EitherSays(report, name, other, text); }
    if IsGiven(value) { assert Says(report, name, other, value.value.text); }
  }

  /** Which field of a report each column of its line is read from, and what of it is shown. */
  lemma WhatALineShows(report: Report, parse: Parser, text: string)
    ensures
      var line := Summarized(report, parse);
      && (text != "" && Says(report, "blockedURL", "blocked-uri", text) ==> ShowsOrigin(text, parse, line.blocked))
      && (SaysNothing(report, "blockedURL", "blocked-uri") ==> line.blocked == "unknown")
      && (text != "" && Says(report, "sourceFile", "source-file", text) ==>
        line.source.Some? && ShowsOrigin(text, parse, line.source.value))
      && (SaysNothing(report, "sourceFile", "source-file") ==> line.source.None?)
      && (text != "" && Says(report, "documentURL", "document-uri", text) ==> ShowsPath(text, parse, line.document))
      && (SaysNothing(report, "documentURL", "document-uri") ==> line.document == "unknown")
      && (line.disposition == Some(text) <==>
        text in {"enforce", "report"} && "disposition" in report && report["disposition"] == Text(text))
  {
    EitherSays(report, "blockedURL", "blocked-uri", text);
    EitherSays(report, "sourceFile", "source-file", text);
    EitherSays(report, "documentURL", "document-uri", text);
    EitherSaysNothing(report, "blockedURL", "blocked-uri");
    EitherSaysNothing(report, "sourceFile", "source-file");
    EitherSaysNothing(report, "documentURL", "document-uri");
    hide Says, SaysNothing, EitherField, IsKeyword, DirectiveName;
  }

  /** A word, with spaces before it and, if anything, a space behind it. */
  predicate BeginsWithWord(text: string, lead: string, word: string, tail: string) {
    && text == lead + word + tail && AllSpaces(lead) && (word == "" ==> tail == "")
    && (forall i :: 0 <= i < |word| ==> !IsSpace(word[i] as nat)) && (tail != "" ==> IsSpace(tail[0] as nat))
  }

  lemma {:induction false} UpToSpaceIs(word: string, tail: string)
    requires (forall i :: 0 <= i < |word| ==> !IsSpace(word[i] as nat)) && (tail != "" ==> IsSpace(tail[0] as nat))
    ensures UpToSpace(word + tail) == word
  {
    hide IsSpace;
    if word == "" {
      assert word + tail == tail;
    } else {
      assert (word + tail)[1..] == word[1..] + tail;
      UpToSpaceIs(word[1..], tail);
    }
  }

  lemma {:induction false} TrimmedEndKeeps(text: string, n: nat)
    requires n <= |text| && (n > 0 ==> !IsSpace(text[n - 1] as nat))
    ensures TrimmedEnd(text) <= text && |TrimmedEnd(text)| >= n
  {
    if text != "" && IsSpace(text[|text| - 1] as nat) {
      hide IsSpace;
      TrimmedEndKeeps(text[..|text| - 1], n);
    }
  }

  lemma FirstWordIs(text: string, lead: string, word: string, tail: string)
    requires BeginsWithWord(text, lead, word, tail)
    ensures FirstWord(text) == word
  {
    hide IsSpace;
    assert text == lead + (word + tail);
    LeadingSpacesGo(lead, word + tail);
    TrimmedEndKeeps(word + tail, |word|);
    var kept := TrimmedEnd(word + tail);
    assert kept == word + kept[|word|..];
    UpToSpaceIs(word, kept[|word|..]);
  }

  /** Its directive is the one the report calls effective, or else the first word of what was violated: if it is a directive. */
  lemma WhichRuleALineNames(report: Report, parse: Parser, text: string, lead: string, word: string, tail: string)
    ensures
      var line := Summarized(report, parse);
      var saysEffective := exists t :: Says(report, "effectiveDirective", "effective-directive", t);
      && (Says(report, "effectiveDirective", "effective-directive", text) ==>
        line.directive == if IsDirective(text) then text else "unknown")
      && (!saysEffective && Says(report, "violatedDirective", "violated-directive", text) && BeginsWithWord(text, lead, word, tail) ==>
        line.directive == if IsDirective(word) then word else "unknown")
      && (!saysEffective && !(exists t :: Says(report, "violatedDirective", "violated-directive", t)) ==> line.directive == "unknown")
  {
    var effective := EitherField(report, "effectiveDirective", "effective-directive");
    var violated := EitherField(report, "violatedDirective", "violated-directive");
    forall t ensures Says(report, "effectiveDirective", "effective-directive", t) <==> effective == Some(Text(t)) {
      EitherSays(report, "effectiveDirective", "effective-directive", t);
    }
    forall t ensures Says(report, "violatedDirective", "violated-directive", t) <==> violated == Some(Text(t)) {
      EitherSays(report, "violatedDirective", "violated-directive", t);
    }
    if effective.Some? && effective.value.Text? { assert Says(report, "effectiveDirective", "effective-directive", effective.value.text); }
    if violated.Some? && violated.value.Text? { assert Says(report, "violatedDirective", "violated-directive", violated.value.text); }
    if BeginsWithWord(text, lead, word, tail) { FirstWordIs(text, lead, word, tail); }
    hide Says, EitherField, IsDirective, BeginsWithWord, FirstWord;
    NoDirectiveIsEmpty();
    assert Summarized(report, parse).directive == DirectiveName(report);
  }

  lemma NoDirectiveIsEmpty()
    ensures !IsDirective("")
  {
  }

  /** A directive is at most forty small letters and dashes, a keyword at most thirty-two with digits too; both begin with a letter. */
  lemma ShapesOfNames(text: string)
    ensures IsDirective(text) <==> 0 < |text| < 41 && text[0] != '-' && forall c :: c in text ==> IsSmall(c) || c == '-'
    ensures IsKeyword(text) <==>
      0 < |text| < 33 && IsSmall(text[0]) && forall c :: c in text ==> IsSmall(c) || c == '-' || (48 <= c as int && c as int <= 57)
  {
    forall i | 0 <= i < |text| ensures text[i] in text {}
  }

  predicate IsSmall(c: char) { 97 <= c as int && c as int <= 122 }

  // ---- Folding ----

  datatype Line = Line(violation: Violation, count: nat)

  function CountOf(vs: seq<Violation>, v: Violation): nat {
    if vs == [] then 0 else CountOf(vs[..|vs| - 1], v) + if vs[|vs| - 1] == v then 1 else 0
  }

  /** The different violations, in the order they were first seen. */
  function FirstSeen(vs: seq<Violation>): seq<Violation> {
    if vs == [] then []
    else
      var seen, last := FirstSeen(vs[..|vs| - 1]), vs[|vs| - 1];
      if last in seen then seen else seen + [last]
  }

  /** The first ten of them, each with its full count. */
  function Lines(vs: seq<Violation>): seq<Line> {
    var shown := FirstSeen(vs)[..Min(MAX_LINES_PER_REQUEST, |FirstSeen(vs)|)];
    seq(|shown|, i requires 0 <= i < |shown| => Line(shown[i], CountOf(vs, shown[i])))
  }

  function Sum(lines: seq<Line>): nat {
    if lines == [] then 0 else Sum(lines[..|lines| - 1]) + lines[|lines| - 1].count
  }

  method Find(lines: seq<Line>, v: Violation) returns (at: Option<nat>)
    ensures at.Some? ==> at.value < |lines| && lines[at.value].violation == v
    ensures at.None? ==> forall i :: 0 <= i < |lines| ==> lines[i].violation != v
  {
    for i := 0 to |lines|
      invariant forall k :: 0 <= k < i ==> lines[k].violation != v
    {
      if lines[i].violation == v { return Some(i); }
    }
    return None;
  }

  lemma {:induction false} FirstSeenIs(vs: seq<Violation>)
    ensures forall i, j :: 0 <= i < j < |FirstSeen(vs)| ==> FirstSeen(vs)[i] != FirstSeen(vs)[j]
    ensures forall v :: v in FirstSeen(vs) <==> v in vs
  {
    if vs != [] {
      FirstSeenIs(vs[..|vs| - 1]);
      assert vs == vs[..|vs| - 1] + [vs[|vs| - 1]];
    }
  }

  lemma {:induction false} UnseenIsZero(vs: seq<Violation>, v: Violation)
    ensures CountOf(vs, v) == 0 <==> v !in vs
  {
    if vs != [] {
      UnseenIsZero(vs[..|vs| - 1], v);
      assert vs == vs[..|vs| - 1] + [vs[|vs| - 1]];
    }
  }

  lemma {:induction false} SumOfCountedUp(lines: seq<Line>, at: nat)
    requires at < |lines|
    ensures Sum(lines[at := Line(lines[at].violation, lines[at].count + 1)]) == Sum(lines) + 1
  {
    var more := lines[at := Line(lines[at].violation, lines[at].count + 1)];
    var front := lines[..|lines| - 1];
    if at == |lines| - 1 {
      assert more[..|more| - 1] == front;
    } else {
      SumOfCountedUp(front, at);
      assert more[..|more| - 1] == front[at := Line(lines[at].violation, lines[at].count + 1)];
    }
  }

  lemma CountsOfOneMore(vs: seq<Violation>, v: Violation)
    ensures forall x :: CountOf(vs + [v], x) == CountOf(vs, x) + if x == v then 1 else 0
    ensures FirstSeen(vs + [v]) == if v in FirstSeen(vs) then FirstSeen(vs) else FirstSeen(vs) + [v]
  {
  }

  /** One more report of a violation that has a line. */
  lemma OneMoreKnown(vs: seq<Violation>, v: Violation, at: nat)
    requires at < |Lines(vs)| && Lines(vs)[at].violation == v
    ensures Lines(vs + [v]) == Lines(vs)[at := Line(v, Lines(vs)[at].count + 1)]
  {
    FirstSeenIs(vs);
    CountsOfOneMore(vs, v);
    hide FirstSeen, CountOf;
    assert FirstSeen(vs)[at] == v && v in FirstSeen(vs);
  }

  /** One more of a violation that has none. */
  lemma OneMoreNew(vs: seq<Violation>, v: Violation)
    requires forall i :: 0 <= i < |Lines(vs)| ==> Lines(vs)[i].violation != v
    ensures Lines(vs + [v]) == if |Lines(vs)| < MAX_LINES_PER_REQUEST then Lines(vs) + [Line(v, 1)] else Lines(vs)
  {
    FirstSeenIs(vs);
    UnseenIsZero(vs, v);
    CountsOfOneMore(vs, v);
    hide FirstSeen, CountOf;
    assert forall i :: 0 <= i < |Lines(vs)| ==> Lines(vs)[i].violation == FirstSeen(vs)[i];
    if |Lines(vs)| < MAX_LINES_PER_REQUEST {
      assert v !in FirstSeen(vs);
    }
  }

  /** One pass over the batch: a line it has is counted up, a new one is added while there is room, the rest are omitted. */
  method Fold(vs: seq<Violation>) returns (lines: seq<Line>, omitted: nat)
    ensures lines == Lines(vs)
    ensures Sum(lines) + omitted == |vs|
  {
    lines, omitted := [], 0;
    assert Lines([]) == [];
    hide Lines;
    for k := 0 to |vs|
      invariant lines == Lines(vs[..k]) && Sum(lines) + omitted == k
    {
      assert vs[..k + 1] == vs[..k] + [vs[k]];
      var at := Find(lines, vs[k]);
      if at.Some? {
        OneMoreKnown(vs[..k], vs[k], at.value);
        SumOfCountedUp(lines, at.value);
        lines := lines[at.value := Line(vs[k], lines[at.value].count + 1)];
      } else if |lines| < MAX_LINES_PER_REQUEST {
        OneMoreNew(vs[..k], vs[k]);
        assert (lines + [Line(vs[k], 1)])[..|lines|] == lines;
        lines := lines + [Line(vs[k], 1)];
      } else {
        OneMoreNew(vs[..k], vs[k]);
        omitted := omitted + 1;
      }
    }
    assert vs[..|vs|] == vs;
  }

  datatype Summary = Summary(lines: seq<Line>, omitted: nat)

  /**
   * A body that is a report turns into lines whose counts, with what was omitted, are
   * every report in it, each reduced to its violation.
   */
  method SummarizeCspReports(body: Json, format: Format, parse: Parser) returns (summary: Option<Summary>)
    ensures summary.None? <==> ReportsIn(body, format).None?
    ensures summary.Some? ==>
      var reports := ReportsIn(body, format).value;
      && summary.value.lines == Lines(seq(|reports|, i requires 0 <= i < |reports| => Summarized(reports[i], parse)))
      && Sum(summary.value.lines) + summary.value.omitted == |reports|
  {
    var found := ReportsIn(body, format);
    if found.None? { return None; }
    var reports := found.value;
    var lines, omitted := Fold(seq(|reports|, i requires 0 <= i < |reports| => Summarized(reports[i], parse)));
    return Some(Summary(lines, omitted));
  }

  /** Each violation before another in FirstSeen was met before it. */
  lemma {:induction false} SeenInOrder(vs: seq<Violation>, i: nat, j: nat) returns (k: nat)
    requires i < j < |FirstSeen(vs)|
    ensures k <= |vs| && FirstSeen(vs)[i] in vs[..k] && FirstSeen(vs)[j] !in vs[..k]
  {
    var front := vs[..|vs| - 1];
    FirstSeenIs(front);
    if j < |FirstSeen(front)| {
      k := SeenInOrder(front, i, j);
      assert front[..k] == vs[..k];
    } else {
      k := |vs| - 1;
      assert FirstSeen(front)[i] in front;
    }
  }

  ghost predicate MetBefore(vs: seq<Violation>, a: Violation, b: Violation) {
    exists k :: 0 <= k <= |vs| && a in vs[..k] && b !in vs[..k]
  }

  /** The lines are at most ten different violations of the batch, every report of each counted. */
  lemma LinesCountEverything(vs: seq<Violation>)
    ensures
      var lines := Lines(vs);
      && |lines| <= MAX_LINES_PER_REQUEST
      && (forall i, j :: 0 <= i < j < |lines| ==> lines[i].violation != lines[j].violation)
      && (forall i, j :: 0 <= i < j < |lines| ==> MetBefore(vs, lines[i].violation, lines[j].violation))
      && (forall i :: 0 <= i < |lines| ==> lines[i].count == CountOf(vs, lines[i].violation) > 0)
  {
    var lines := Lines(vs);
    FirstSeenIs(vs);
    forall i | 0 <= i < |lines| ensures CountOf(vs, lines[i].violation) > 0 {
      assert FirstSeen(vs)[i] in FirstSeen(vs);
      UnseenIsZero(vs, lines[i].violation);
    }
    forall i, j | 0 <= i < j < |lines| ensures MetBefore(vs, lines[i].violation, lines[j].violation) {
      var k := SeenInOrder(vs, i, j);
    }
  }

  /** They are the first ten: a violation without a line was met after each of ten others. */
  lemma OmittedCameLater(vs: seq<Violation>, v: Violation, i: nat)
    requires v in vs && (forall k :: 0 <= k < |Lines(vs)| ==> Lines(vs)[k].violation != v)
    ensures |Lines(vs)| == MAX_LINES_PER_REQUEST
    ensures i < MAX_LINES_PER_REQUEST ==> MetBefore(vs, Lines(vs)[i].violation, v)
  {
    FirstSeenIs(vs);
    assert forall k :: 0 <= k < |Lines(vs)| ==> Lines(vs)[k].violation == FirstSeen(vs)[k];
    var j :| 0 <= j < |FirstSeen(vs)| && FirstSeen(vs)[j] == v;
    assert j >= |Lines(vs)|;
    if i < MAX_LINES_PER_REQUEST {
      var k := SeenInOrder(vs, i, j);
    }
  }
}
