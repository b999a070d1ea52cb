/** The redirects that give every page one spelling: no trailing slash, and no capitals in its first segment. */
module Redirects {
  import opened Basics
  import opened Numerals

  predicate IsLetter(c: char) { 'A' <= c <= 'Z' || 'a' <= c <= 'z' }

  /** [A-Za-z0-9-] */
  predicate IsSegmentChar(c: char) { IsLetter(c) || IsDigit(c) || c == '-' }

  predicate HasCapital(text: string) { exists i :: 0 <= i < |text| && IsCapital(text[i]) }

  // ---- The trailing slash ----

  /** /^\/[/\\]/, or a backslash anywhere: left for the 404 it already answers. */
  predicate CouldNameAHost(path: string) {
    || (|path| >= 2 && path[0] == '/' && (path[1] == '/' || path[1] == '\\'))
    || '\\' in path
  }

  /** Every trailing slash but the first character. */
  function Trimmed(path: string): (t: string)
    ensures t <= path && |t| >= (if |path| > 0 then 1 else 0)
  {
    if |path| > 1 && path[|path| - 1] == '/' then Trimmed(path[..|path| - 1]) else path
  }

  method TrimSlashes(pathname: string) returns (target: string)
    ensures target == Trimmed(pathname)
  {
    var end := |pathname|;
    assert pathname[..end] == pathname;
    while end > 1 && pathname[end - 1] == '/'
      invariant 0 <= end <= |pathname| && Trimmed(pathname[..end]) == Trimmed(pathname)
    {
      assert pathname[..end][..end - 1] == pathname[..end - 1];
      end := end - 1;
    }
    target := pathname[..end];
  }

  function SlashRedirect(path: string): Option<string> {
    if |path| < 2 || path[|path| - 1] != '/' || CouldNameAHost(path) then None else Some(Trimmed(path))
  }

  // ---- The first segment ----

  /** How far the characters of a first segment run. */
  function SegmentEnd(path: string, from: nat): (end: nat)
    requires from <= |path|
    ensures from <= end <= |path| && (end < |path| ==> !IsSegmentChar(path[end]))
    ensures forall i :: from <= i < end ==> IsSegmentChar(path[i])
    decreases |path| - from
  {
    if from < |path| && IsSegmentChar(path[from]) then SegmentEnd(path, from + 1) else from
  }

  /** /^\/([A-Za-z0-9-]+)(?=\/|$)/: the end of the segment it matches. */
  function FirstSegment(path: string): Option<nat> {
    if path == "" || path[0] != '/' then None
    else
      var end := SegmentEnd(path, 1);
      if end > 1 && (end == |path| || path[end] == '/') then Some(end) else None
  }

  predicate IsPositiveNumeral(text: string) {
    text != "" && '1' <= text[0] <= '9' && forall i :: 0 <= i < |text| ==> IsDigit(text[i])
  }

  /** The site's own addresses with a dot in them. */
  predicate IsDotted(low: string) {
    || low == "/robots.txt" || low == "/favicon.ico" || low == "/feed.xml" || low == "/news/feed.xml"
    || low == "/sitemap.xml" || low == "/sitemap-index.xml"
    || IsNumbered(low)
  }

  predicate IsNumbered(low: string) {
    |low| > 13 && low[..9] == "/sitemap-" && low[|low| - 4..] == ".xml" && IsPositiveNumeral(low[9..|low| - 4])
  }

  /** Matched whatever their capitals. */
  predicate IsDottedRoute(path: string) { IsDotted(Lower(path)) }

  function CaseRedirect(path: string): Option<string> {
    if IsDottedRoute(path) then (if HasCapital(path) then Some(Lower(path)) else None)
    else
      match FirstSegment(path)
      case None => None
      case Some(end) => if HasCapital(path[1..end]) then Some("/" + Lower(path[1..end]) + path[end..]) else None
  }

  /** What a GET of the path is answered with: the slash rule comes first. */
  function Response(path: string): Option<string> {
    if SlashRedirect(path).Some? then SlashRedirect(path) else CaseRedirect(path)
  }

  // ---- Where it ends ----

  function Capitals(text: string): nat {
    if text == "" then 0 else (if IsCapital(text[0]) then 1 else 0) + Capitals(text[1..])
  }

  lemma {:induction false} CapitalsOfParts(a: string, b: string)
    ensures Capitals(a + b) == Capitals(a) + Capitals(b)
  {
    if a == "" {
      assert a + b == b;
    } else {
      CapitalsOfParts(a[1..], b);
      assert (a + b)[1..] == a[1..] + b;
    }
  }

  lemma {:induction false} LowerHasNone(text: string)
    ensures Capitals(Lower(text)) == 0 && !HasCapital(Lower(text))
  {
    if text != "" {
      LowerHasNone(text[1..]);
      assert Lower(text)[1..] == Lower(text[1..]);
    }
  }

  lemma {:induction false} CapitalsCount(text: string)
    ensures Capitals(text) > 0 <==> HasCapital(text)
  {
    if text != "" {
      CapitalsCount(text[1..]);
      if i :| 0 <= i < |text| && IsCapital(text[i]) {
        if i > 0 { assert IsCapital(text[1..][i - 1]); }
      }
      if i :| 0 <= i < |text[1..]| && IsCapital(text[1..][i]) {
        assert IsCapital(text[i + 1]);
      }
    }
  }

  /** Every redirect shortens the path, or keeps its length and leaves fewer capitals. */
  lemma RedirectsDecrease(path: string)
    requires Response(path).Some?
    ensures var next := Response(path).value;
      |next| < |path| || (|next| == |path| && Capitals(next) < Capitals(path))
  {
    if SlashRedirect(path).Some? {
      assert Trimmed(path) == Trimmed(path[..|path| - 1]);
    } else if IsDottedRoute(path) {
      LowerHasNone(path);
      CapitalsCount(path);
    } else {
      var end := FirstSegment(path).value;
      var segment, rest := path[1..end], path[end..];
      assert path == "/" + segment + rest;
      LowerHasNone(segment);
      CapitalsCount(segment);
      CapitalsOfParts("/" + segment, rest);
      CapitalsOfParts("/", segment);
      CapitalsOfParts("/" + Lower(segment), rest);
      CapitalsOfParts("/", Lower(segment));
    }
  }

  /** Where following the redirects ends. */
  function Final(path: string): string
    decreases |path|, Capitals(path)
  {
    if Response(path).None? then path
    else
      RedirectsDecrease(path);
      Final(Response(path).value)
  }

  /** After the slash rule has answered, it has nothing left to do. */
  lemma SlashRedirectOnce(path: string)
    requires SlashRedirect(path).Some?
    ensures SlashRedirect(Trimmed(path)).None?
  {
  }

  /** Lower-casing touches neither the slashes nor the length. */
  lemma CaseRedirectKeepsShape(path: string)
    requires CaseRedirect(path).Some?
    ensures SameButForCapitals(path, CaseRedirect(path).value)
  {
    hide HasCapital, IsDottedRoute;
    if !IsDottedRoute(path) {
      var end := FirstSegment(path).value;
      assert path[0] == '/' && 1 <= end <= |path|;
      hide FirstSegment;
      assert CaseRedirect(path).value == ("/" + Lower(path[1..end])) + path[end..];
    }
  }

  lemma {:induction false} SegmentEndIs(path: string, from: nat, end: nat)
    requires from <= end <= |path| && (end < |path| ==> !IsSegmentChar(path[end]))
    requires forall i :: from <= i < end ==> IsSegmentChar(path[i])
    ensures SegmentEnd(path, from) == end
    decreases end - from
  {
  }

  ghost predicate SameButForCapitals(path: string, next: string) {
    |next| == |path| && forall i :: 0 <= i < |path| ==> next[i] == path[i] || (IsCapital(path[i]) && next[i] == LowerChar(path[i]))
  }

  lemma SlashesAreNoCapitals(path: string, next: string)
    requires SameButForCapitals(path, next)
    ensures SlashRedirect(path).None? ==> SlashRedirect(next).None?
    ensures Lower(next) == Lower(path)
  {
  }

  /** After the case rule has answered, neither rule has anything left to do. */
  lemma CaseRedirectOnce(path: string)
    requires SlashRedirect(path).None? && CaseRedirect(path).Some?
    ensures Response(CaseRedirect(path).value).None?
  {
    hide SlashRedirect, IsDotted, Lower, IsSegmentChar;
    var next := CaseRedirect(path).value;
    CaseRedirectKeepsShape(path);
    SlashesAreNoCapitals(path, next);
    if IsDottedRoute(path) {
      LowerHasNone(path);
    } else {
      SegmentIsLowered(path);
    }
  }

  lemma SegmentIsLowered(path: string)
    requires !IsDottedRoute(path) && CaseRedirect(path).Some?
    ensures var next := CaseRedirect(path).value;
      FirstSegment(next) == FirstSegment(path) && !HasCapital(next[1..FirstSegment(path).value])
  {
    hide IsDotted, HasCapital;
    var end := FirstSegment(path).value;
    var next := CaseRedirect(path).value;
    assert next[1..end] == Lower(path[1..end]);
    LowerHasNone(path[1..end]);
    forall i | 1 <= i < end ensures IsSegmentChar(next[i]) {
      assert next[i] == Lower(path[1..end])[i - 1];
    }
    assert end < |path| ==> next[end] == path[end];
    SegmentEndIs(next, 1, end);
  }

  /** From any path at most two redirects, the slashes first and then the capitals, and nothing after them. */
  lemma TwoHopsAtMost(path: string)
    ensures
      var trimmed := if SlashRedirect(path).Some? then SlashRedirect(path).value else path;
      var lowered := if CaseRedirect(trimmed).Some? then CaseRedirect(trimmed).value else trimmed;
      Final(path) == lowered && Response(lowered).None?
  {
    var trimmed := if SlashRedirect(path).Some? then SlashRedirect(path).value else path;
    var lowered := if CaseRedirect(trimmed).Some? then CaseRedirect(trimmed).value else trimmed;
    if SlashRedirect(path).Some? { SlashRedirectOnce(path); }
    if CaseRedirect(trimmed).Some? { CaseRedirectOnce(trimmed); }
    hide SlashRedirect, CaseRedirect;
    assert SlashRedirect(trimmed).None? && Response(lowered).None?;
    assert Final(path) == Final(trimmed);
    assert Final(trimmed) == Final(lowered);
  }

  lemma DottedBegins(low: string)
    requires IsDotted(low)
    ensures |low| >= 2 && low[0] == '/' && 'a' <= low[1] <= 'z'
  {
  }

  lemma {:induction false} TrimmedAtASlash(path: string)
    ensures |Trimmed(path)| < |path| ==> path[|Trimmed(path)|] == '/'
  {
    if |path| > 1 && path[|path| - 1] == '/' { TrimmedAtASlash(path[..|path| - 1]); }
  }

  /** Every Location names a path of this site: one slash, and no second one or backslash behind it. */
  lemma LocationsStayHere(path: string)
    requires path != "" && path[0] == '/' && Response(path).Some?
    ensures
      var location := Response(path).value;
      |location| >= 2 && location[0] == '/' && location[1] != '/' && location[1] != '\\'
  {
    hide IsDotted;
    if SlashRedirect(path).Some? {
      TrimmedAtASlash(path);
    } else {
      CaseRedirectKeepsShape(path);
      if IsDottedRoute(path) {
        DottedBegins(Lower(path));
      }
    }
  }

  // ---- When a redirect comes, and what it leaves ----

  /** The first segment runs up to end: letters, digits and "-" behind one slash, and then another slash or nothing. */
  predicate IsFirstSegment(path: string, end: nat) {
    && 1 < end <= |path| && path[0] == '/' && (end == |path| || path[end] == '/')
    && forall i :: 1 <= i < end ==>
      var c := path[i]; 'a' <= c <= 'z' || 'A' <= c <= 'Z' || '0' <= c <= '9' || c == '-'
  }

  lemma FirstSegmentIff(path: string, end: nat)
    ensures FirstSegment(path) == Some(end) <==> IsFirstSegment(path, end)
  {
    if IsFirstSegment(path, end) { SegmentEndIs(path, 1, end); }
  }

  ghost predicate HasCapitalSegment(path: string) {
    exists end: nat, i: nat :: IsFirstSegment(path, end) && 1 <= i < end && IsCapital(path[i])
  }

  ghost predicate LosesASlash(path: string) {
    && |path| >= 2 && path[|path| - 1] == '/'
    && !(path[0] == '/' && (path[1] == '/' || path[1] == '\\')) && '\\' !in path
  }

  /** The addresses with a dot in them: six, and the numbered sitemaps. */
  lemma DottedIff(low: string)
    ensures IsDotted(low) <==>
      || low in {"/robots.txt", "/favicon.ico", "/feed.xml", "/news/feed.xml", "/sitemap.xml", "/sitemap-index.xml"}
      || exists n :: n > 0 && low == "/sitemap-" + Numeral(n) + ".xml"
  {
    if IsNumbered(low) {
      NumberedHasNumber(low);
    } else if n: nat :| n > 0 && low == "/sitemap-" + Numeral(n) + ".xml" {
      NumberIsNumbered(low, n);
    }
  }

  function NumberOf(low: string): nat
    requires IsNumbered(low)
  {
    Value(low[9..|low| - 4])
  }

  lemma NumberedHasNumber(low: string)
    requires IsNumbered(low)
    ensures NumberOf(low) > 0 && low == "/sitemap-" + Numeral(NumberOf(low)) + ".xml"
  {
    ReadingIsSpelling(low[9..|low| - 4]);
    assert low == low[..9] + low[9..|low| - 4] + low[|low| - 4..];
  }

  lemma NumberIsNumbered(low: string, n: nat)
    requires n > 0 && low == "/sitemap-" + Numeral(n) + ".xml"
    ensures IsNumbered(low)
  {
    NumeralReadsBack(n);
    var digits := Numeral(n);
    assert low[..9] == "/sitemap-" && low[|low| - 4..] == ".xml" && low[9..|low| - 4] == digits;
    assert IsDigit(digits[0]);
  }

  /** A redirect comes for a slash the path can lose, for a capital in a dotted address, and for one in the first segment. */
  lemma RedirectsIff(path: string)
    ensures Response(path).Some? <==>
      || LosesASlash(path)
      || (if IsDotted(Lower(path)) then exists i :: 0 <= i < |path| && IsCapital(path[i]) else HasCapitalSegment(path))
  {
    hide IsDotted, Lower;
    SlashRedirectsIff(path);
    hide SlashRedirect, LosesASlash;
    if !IsDotted(Lower(path)) { CaseRedirectsIff(path); }
  }

  lemma SlashRedirectsIff(path: string)
    ensures SlashRedirect(path).Some? <==> LosesASlash(path)
  {
  }

  lemma CaseRedirectsIff(path: string)
    requires !IsDotted(Lower(path))
    ensures CaseRedirect(path).Some? <==> HasCapitalSegment(path)
  {
    hide IsDotted, Lower;
    if CaseRedirect(path).Some? {
      var end := FirstSegment(path).value;
      FirstSegmentIff(path, end);
      var i :| 0 <= i < |path[1..end]| && IsCapital(path[1..end][i]);
      assert IsCapital(path[i + 1]);
    }
    if HasCapitalSegment(path) {
      var end: nat, i: nat :| IsFirstSegment(path, end) && 1 <= i < end && IsCapital(path[i]);
      FirstSegmentIff(path, end);
      assert IsCapital(path[1..end][i - 1]);
    }
  }

  /** Where it ends: no slash to lose, no capital in the first segment, none at all in a dotted address. */
  lemma FinalIsOneSpelling(path: string)
    ensures var final := Final(path);
      !LosesASlash(final)
      && (if IsDotted(Lower(final)) then forall i :: 0 <= i < |final| ==> !IsCapital(final[i]) else !HasCapitalSegment(final))
  {
    TwoHopsAtMost(path);
    hide Final, IsDotted, Lower, LosesASlash;
    RedirectsIff(Final(path));
  }

  lemma {:induction false} TrimmedLosesSlashes(path: string)
    ensures forall i :: |Trimmed(path)| <= i < |path| ==> path[i] == '/'
  {
    if |path| > 1 && path[|path| - 1] == '/' { TrimmedLosesSlashes(path[..|path| - 1]); }
  }

  /** Only capitals are lowered, and behind the first segment of an address without a dot not even those. */
  ghost predicate OnlyLowered(path: string, next: string) {
    && SameButForCapitals(path, next)
    && (!IsDotted(Lower(next)) ==>
      forall end: nat, i: nat :: IsFirstSegment(next, end) && end <= i < |next| ==> next[i] == path[i])
  }

  lemma CaseRedirectOnlyLowers(path: string)
    requires CaseRedirect(path).Some?
    ensures OnlyLowered(path, CaseRedirect(path).value)
  {
    var next := CaseRedirect(path).value;
    CaseRedirectKeepsShape(path);
    SlashesAreNoCapitals(path, next);
    if !IsDottedRoute(path) {
      SegmentIsLowered(path);
      RestIsKept(path);
      hide IsDotted, Lower, IsFirstSegment, CaseRedirect, SameButForCapitals;
      forall end: nat | IsFirstSegment(next, end) ensures FirstSegment(path) == Some(end) { FirstSegmentIff(next, end); }
    }
  }

  /** It is the same page: what is lost is trailing slashes, and what is changed is only lowered. */
  lemma FinalIsTheSamePage(path: string)
    ensures var final := Final(path);
      |final| <= |path| && (forall i :: |final| <= i < |path| ==> path[i] == '/') && OnlyLowered(path[..|final|], final)
  {
    TwoHopsAtMost(path);
    var trimmed := if SlashRedirect(path).Some? then SlashRedirect(path).value else path;
    TrimmedLosesSlashes(path);
    assert trimmed == path[..|trimmed|];
    hide IsDotted, Lower, IsFirstSegment, CaseRedirect, Final, SlashRedirect, Trimmed;
    if CaseRedirect(trimmed).Some? { CaseRedirectOnlyLowers(trimmed); }
  }

  lemma RestIsKept(path: string)
    requires !IsDottedRoute(path) && CaseRedirect(path).Some?
    ensures var end := FirstSegment(path).value;
      |CaseRedirect(path).value| == |path| && forall i :: end <= i < |path| ==> CaseRedirect(path).value[i] == path[i]
  {
  }
}
