/** htmlToPlainText: markup scanned out, entities decoded, spacing tidied. */
module PlainText {
  import opened Basics
  import opened HtmlEntities

  const SPACE: nat := 32
  const OPEN: nat := 40
  const DASH: nat := 45
  const SLASH: nat := 47
  const BANG: nat := 33

  // ---- Spacing ----

  /** [.,;:!?)] */
  predicate IsPunctuation(u: nat) { u == 46 || u == 44 || u == 59 || u == 58 || u == BANG || u == 63 || u == 41 }

  function SpaceRun(t: Text, i: nat): (end: nat)
    requires i <= |t|
    ensures i <= end <= |t| && (end < |t| ==> !IsSpace(t[end])) && (i < |t| && IsSpace(t[i]) ==> end > i)
    ensures forall k :: i <= k < end ==> IsSpace(t[k])
    decreases |t| - i
  {
    if i < |t| && IsSpace(t[i]) then SpaceRun(t, i + 1) else i
  }

  /** .replace(/\s+/g, " ") */
  function Collapse(t: Text): Text
    decreases |t|
  {
    if t == [] then []
    else if IsSpace(t[0]) then [SPACE] + Collapse(t[SpaceRun(t, 0)..])
    else [t[0]] + Collapse(t[1..])
  }

  /** .replace(/\s+([.,;:!?)])/g, "$1") */
  function JoinPunctuation(t: Text): Text
    decreases |t|
  {
    if t == [] then []
    else
      var run := SpaceRun(t, 0);
      if 0 < run < |t| && IsPunctuation(t[run]) then [t[run]] + JoinPunctuation(t[run + 1..])
      else [t[0]] + JoinPunctuation(t[1..])
  }

  /** .replace(/(\()\s+/g, "$1") */
  function JoinOpening(t: Text): Text
    decreases |t|
  {
    if t == [] then []
    else if t[0] == OPEN then [OPEN] + JoinOpening(t[SpaceRun(t, 1)..])
    else [t[0]] + JoinOpening(t[1..])
  }

  function TrimEnd(t: Text): (r: Text)
    ensures r <= t && (r != [] ==> !IsSpace(r[|r| - 1]))
  {
    if t != [] && IsSpace(t[|t| - 1]) then TrimEnd(t[..|t| - 1]) else t
  }

  function Trim(t: Text): Text { TrimEnd(t[SpaceRun(t, 0)..]) }

  function Normalised(t: Text): Text { Trim(JoinOpening(JoinPunctuation(Collapse(t)))) }

  /** Spaces are plain, and each stands alone. */
  predicate IsSingle(t: Text) {
    && (forall i :: 0 <= i < |t| && IsSpace(t[i]) ==> t[i] == SPACE)
    && (forall i :: 0 <= i < |t| - 1 && IsSpace(t[i]) ==> !IsSpace(t[i + 1]))
  }

  predicate IsJoined(t: Text) {
    forall i :: 0 <= i < |t| - 1 && IsSpace(t[i]) ==> !IsPunctuation(t[i + 1])
  }

  predicate IsOpened(t: Text) {
    forall i :: 0 <= i < |t| - 1 && t[i] == OPEN ==> !IsSpace(t[i + 1])
  }

  predicate IsTrimmed(t: Text) { t == [] || (!IsSpace(t[0]) && !IsSpace(t[|t| - 1])) }

  /** Tidy text: what the normaliser leaves, told without it. */
  predicate IsTidy(t: Text) { IsSingle(t) && IsJoined(t) && IsOpened(t) && IsTrimmed(t) }

  lemma {:induction false} CollapseSingles(t: Text)
    ensures IsSingle(Collapse(t))
    ensures t != [] ==> Collapse(t) != [] && (!IsSpace(t[0]) ==> Collapse(t)[0] == t[0])
    decreases |t|
  {
    assert IsSpace(SPACE);
    hide IsSpace;
    if t != [] {
      var from := if IsSpace(t[0]) then SpaceRun(t, 0) else 1;
      CollapseSingles(t[from..]);
    }
  }

  lemma PutBeforeJoined(u: nat, t: Text)
    requires IsSingle(t) && IsJoined(t)
    requires IsSpace(u) ==> u == SPACE && (t != [] ==> !IsSpace(t[0]) && !IsPunctuation(t[0]))
    ensures IsSingle([u] + t) && IsJoined([u] + t)
  {
  }

  lemma {:induction false} JoinPunctuationJoins(t: Text)
    requires IsSingle(t)
    ensures IsSingle(JoinPunctuation(t)) && IsJoined(JoinPunctuation(t))
    ensures t != [] && !IsSpace(t[0]) ==> JoinPunctuation(t) != [] && JoinPunctuation(t)[0] == t[0]
    decreases |t|
  {
    if t != [] {
      hide IsPunctuation, IsSpace;
      var run := SpaceRun(t, 0);
      var joins := 0 < run < |t| && IsPunctuation(t[run]);
      var from := if joins then run + 1 else 1;
      assert IsSingle(t[from..]);
      JoinPunctuationJoins(t[from..]);
      PutBeforeJoined(if joins then t[run] else t[0], JoinPunctuation(t[from..]));
    }
  }

  lemma PutBefore(u: nat, t: Text)
    requires IsSingle(t) && IsJoined(t) && IsOpened(t)
    requires IsSpace(u) ==> u == SPACE && (t != [] ==> !IsSpace(t[0]) && !IsPunctuation(t[0]))
    requires u == OPEN && t != [] ==> !IsSpace(t[0])
    ensures IsSingle([u] + t) && IsJoined([u] + t) && IsOpened([u] + t)
  {
  }

  lemma {:induction false} JoinOpeningOpens(t: Text)
    requires IsSingle(t) && IsJoined(t)
    ensures IsSingle(JoinOpening(t)) && IsJoined(JoinOpening(t)) && IsOpened(JoinOpening(t))
    ensures t != [] ==> JoinOpening(t) != [] && JoinOpening(t)[0] == t[0]
    decreases |t|
  {
    if t != [] {
      var from := if t[0] == OPEN then SpaceRun(t, 1) else 1;
      assert !IsSpace(OPEN);
      hide IsSpace, IsPunctuation;
      assert IsSingle(t[from..]) && IsJoined(t[from..]);
      JoinOpeningOpens(t[from..]);
      PutBefore(t[0], JoinOpening(t[from..]));
    }
  }

  lemma TrimTidies(t: Text)
    requires IsSingle(t) && IsJoined(t) && IsOpened(t)
    ensures IsTidy(Trim(t))
  {
  }

  lemma NormalisedIsTidy(t: Text)
    ensures IsTidy(Normalised(t))
  {
    hide IsSpace, IsPunctuation, Collapse, JoinPunctuation, JoinOpening, IsSingle, IsJoined, IsOpened, Trim, IsTidy;
    CollapseSingles(t);
    JoinPunctuationJoins(Collapse(t));
    JoinOpeningOpens(JoinPunctuation(Collapse(t)));
    TrimTidies(JoinOpening(JoinPunctuation(Collapse(t))));
  }

  lemma {:induction false} TidyIsKept(t: Text)
    requires IsSingle(t) && IsJoined(t) && IsOpened(t)
    ensures Collapse(t) == t && JoinPunctuation(t) == t && JoinOpening(t) == t
    decreases |t|
  {
    if t != [] {
      TidyIsKept(t[1..]);
      hide IsPunctuation;
      assert t == [t[0]] + t[1..];
      if IsSpace(t[0]) { assert SpaceRun(t, 0) == 1; }
    }
  }

  lemma TrimmedIsKept(t: Text)
    requires IsTrimmed(t)
    ensures Trim(t) == t
  {
  }

  /** Normalising leaves tidy text alone, so doing it twice is doing it once. */
  lemma NormalisedOnce(t: Text)
    ensures IsTidy(t) ==> Normalised(t) == t
    ensures Normalised(Normalised(t)) == Normalised(t)
  {
    hide IsSpace, IsPunctuation, Collapse, JoinPunctuation, JoinOpening, IsSingle, IsJoined, IsOpened, IsTrimmed, Trim;
    NormalisedIsTidy(t);
    TidyIsKept(Normalised(t));
    TrimmedIsKept(Normalised(t));
    if IsTidy(t) {
      TidyIsKept(t);
      TrimmedIsKept(t);
    }
  }

  // ---- What normalising keeps ----

  /**
   * The text in one pass: every character but the spaces, in order, and between two of them one space when the text has
   * any there, unless the first is "(" or the second is punctuation.
   */
  function Respaced(t: Text, before: Option<nat>, gap: bool): Text {
    if t == [] then []
    else if IsSpace(t[0]) then Respaced(t[1..], before, true)
    else
      (if gap && before.Some? && before.value != OPEN && !IsPunctuation(t[0]) then [SPACE] else [])
      + [t[0]] + Respaced(t[1..], Some(t[0]), false)
  }

  lemma {:induction false} ARunIsAGap(t: Text, i: nat, before: Option<nat>)
    requires i <= |t|
    ensures Respaced(t[i..], before, true) == Respaced(t[SpaceRun(t, i)..], before, true)
    decreases |t| - i
  {
    if i < |t| && IsSpace(t[i]) {
      ARunIsAGap(t, i + 1, before);
      assert t[i..][1..] == t[i + 1..];
    }
  }

  lemma ALeadingRunIsAGap(t: Text, before: Option<nat>, gap: bool)
    requires t != [] && IsSpace(t[0])
    ensures Respaced(t, before, gap) == Respaced(t[SpaceRun(t, 0)..], before, true)
  {
    assert t[0..] == t;
    ARunIsAGap(t, 1, before);
    assert SpaceRun(t, 0) == SpaceRun(t, 1);
  }

  lemma PutFirst(u: nat, t: Text, before: Option<nat>, gap: bool)
    ensures IsSpace(u) ==> Respaced([u] + t, before, gap) == Respaced(t, before, true)
    ensures !IsSpace(u) ==>
      var space := if gap && before.Some? && before.value != OPEN && !IsPunctuation(u) then [SPACE] else [];
      Respaced([u] + t, before, gap) == space + [u] + Respaced(t, Some(u), false)
  {
    assert ([u] + t)[1..] == t;
  }

  lemma {:induction false} CollapseRespaces(t: Text, before: Option<nat>, gap: bool)
    ensures Respaced(Collapse(t), before, gap) == Respaced(t, before, gap)
    decreases |t|
  {
    if t != [] {
      assert IsSpace(SPACE);
      var from := if IsSpace(t[0]) then SpaceRun(t, 0) else 1;
      var head := if IsSpace(t[0]) then SPACE else t[0];
      assert Collapse(t) == [head] + Collapse(t[from..]);
      if IsSpace(t[0]) { ALeadingRunIsAGap(t, before, gap); }
      hide IsSpace, IsPunctuation, Collapse;
      PutFirst(head, Collapse(t[from..]), before, gap);
      CollapseRespaces(t[from..], if IsSpace(t[0]) then before else Some(t[0]), IsSpace(t[0]));
    }
  }

  /** Which characters count, and as what. */
  lemma CharactersAre(u: nat)
    ensures IsPunctuation(u) <==> u in Units(".,;:!?)")
    ensures [OPEN] == Units("(") && [SPACE] == Units(" ") && [SLASH] == Units("/") && [LESS] == Units("<")
    ensures [GREATER] == Units(">") && [QUOTE, APOSTROPHE] == Units("\"'")
  {
    var marks := Units(".,;:!?)");
    assert marks == [46, 44, 59, 58, 33, 63, 41];
  }

  lemma PunctuationIsNoSpace(u: nat)
    requires IsPunctuation(u) || u == OPEN
    ensures !IsSpace(u)
  {
  }

  /** Before punctuation a gap makes no difference. */
  lemma NoSpaceBeforePunctuation(t: Text, before: Option<nat>, gap: bool)
    requires t != [] && IsPunctuation(t[0])
    ensures Respaced(t, before, gap) == [t[0]] + Respaced(t[1..], Some(t[0]), false)
  {
    PunctuationIsNoSpace(t[0]);
    hide IsSpace, IsPunctuation;
  }

  lemma {:induction false} JoinPunctuationRespaces(t: Text, before: Option<nat>, gap: bool)
    ensures Respaced(JoinPunctuation(t), before, gap) == Respaced(t, before, gap)
    decreases |t|
  {
    if t != [] {
      var run := SpaceRun(t, 0);
      if 0 < run < |t| && IsPunctuation(t[run]) {
        ALeadingRunIsAGap(t, before, gap);
        NoSpaceBeforePunctuation(t[run..], before, true);
        var rest := t[run + 1..];
        assert t[run..][1..] == rest;
        assert JoinPunctuation(t)[1..] == JoinPunctuation(rest);
        NoSpaceBeforePunctuation(JoinPunctuation(t), before, gap);
        JoinPunctuationRespaces(rest, Some(t[run]), false);
      } else {
        assert JoinPunctuation(t) == [t[0]] + JoinPunctuation(t[1..]);
        hide IsSpace, IsPunctuation, JoinPunctuation;
        PutFirst(t[0], JoinPunctuation(t[1..]), before, gap);
        JoinPunctuationRespaces(t[1..], if IsSpace(t[0]) then before else Some(t[0]), IsSpace(t[0]));
      }
    }
  }

  /** Nor does it after "(". */
  lemma NoSpaceAfterOpening(t: Text, gap: bool)
    ensures Respaced(t, Some(OPEN), gap) == Respaced(t, Some(OPEN), false)
  {
  }

  lemma {:induction false} JoinOpeningRespaces(t: Text, before: Option<nat>, gap: bool)
    ensures Respaced(JoinOpening(t), before, gap) == Respaced(t, before, gap)
    decreases |t|
  {
    if t != [] {
      var from := if t[0] == OPEN then SpaceRun(t, 1) else 1;
      assert JoinOpening(t) == [t[0]] + JoinOpening(t[from..]);
      PunctuationIsNoSpace(OPEN);
      hide IsSpace, IsPunctuation, JoinOpening;
      PutFirst(t[0], JoinOpening(t[from..]), before, gap);
      PutFirst(t[0], t[1..], before, gap);
      assert [t[0]] + t[1..] == t;
      if t[0] == OPEN {
        ARunIsAGap(t, 1, Some(OPEN));
        NoSpaceAfterOpening(t[1..], true);
        NoSpaceAfterOpening(t[from..], true);
      }
      JoinOpeningRespaces(t[from..], if IsSpace(t[0]) then before else Some(t[0]), IsSpace(t[0]));
    }
  }

  lemma {:induction false} ATrailingSpaceIsNothing(t: Text, u: nat, before: Option<nat>, gap: bool)
    requires IsSpace(u)
    ensures Respaced(t + [u], before, gap) == Respaced(t, before, gap)
  {
    if t == [] {
      PutFirst(u, [], before, gap);
      assert [u] + [] == t + [u];
    } else {
      hide IsPunctuation;
      assert (t + [u])[1..] == t[1..] + [u];
      ATrailingSpaceIsNothing(t[1..], u, if IsSpace(t[0]) then before else Some(t[0]), IsSpace(t[0]));
    }
  }

  lemma {:induction false} TrimEndRespaces(t: Text)
    ensures Respaced(TrimEnd(t), None, false) == Respaced(t, None, false)
  {
    if t != [] && IsSpace(t[|t| - 1]) {
      ATrailingSpaceIsNothing(t[..|t| - 1], t[|t| - 1], None, false);
      assert t[..|t| - 1] + [t[|t| - 1]] == t;
      TrimEndRespaces(t[..|t| - 1]);
    }
  }

  lemma NoSpaceAtTheFront(t: Text)
    ensures Respaced(t, None, true) == Respaced(t, None, false)
  {
  }

  lemma TrimRespaces(t: Text)
    ensures Respaced(Trim(t), None, false) == Respaced(t, None, false)
  {
    TrimEndRespaces(t[SpaceRun(t, 0)..]);
    NoSpaceAtTheFront(t[SpaceRun(t, 0)..]);
    if t != [] && IsSpace(t[0]) { ALeadingRunIsAGap(t, None, false); } else { assert t[0..] == t; }
  }

  lemma ASpaceStays(t: Text, before: nat)
    requires |t| >= 2 && t[0] == SPACE && !IsSpace(t[1]) && !IsPunctuation(t[1]) && before != OPEN
    ensures Respaced(t, Some(before), false) == [SPACE, t[1]] + Respaced(t[2..], Some(t[1]), false)
  {
    assert IsSpace(t[0]);
    hide IsSpace, IsPunctuation, Respaced;
    assert t == [t[0]] + t[1..] && t[1..] == [t[1]] + t[2..];
    PutFirst(t[0], t[1..], Some(before), false);
    PutFirst(t[1], t[2..], Some(before), true);
    assert [SPACE] + [t[1]] == [SPACE, t[1]];
  }

  /** Taking the front off spoils nothing. */
  lemma StillTidy(s: Text, n: nat)
    requires n < |s| && IsSingle(s) && IsJoined(s) && IsOpened(s)
    ensures IsSingle(s[n..]) && IsJoined(s[n..]) && IsOpened(s[n..])
  {
    hide IsSpace, IsPunctuation;
    var rest := s[n..];
    assert forall i :: 0 <= i < |rest| ==> rest[i] == s[i + n];
  }

  lemma NextOfTidy(s: Text)
    requires |s| >= 3 && IsSingle(s) && IsJoined(s) && IsOpened(s) && IsSpace(s[1])
    ensures s[1] == SPACE && !IsSpace(s[2]) && !IsPunctuation(s[2]) && s[0] != OPEN
  {
    hide IsSpace, IsPunctuation;
  }

  /** Single, joined and opened text, behind a character that is not a space, is kept as it is. */
  lemma {:induction false} TidyRespacesToItself(s: Text)
    requires s != [] && IsSingle(s) && IsJoined(s) && IsOpened(s) && !IsSpace(s[0]) && !IsSpace(s[|s| - 1])
    ensures Respaced(s[1..], Some(s[0]), false) == s[1..]
    decreases |s|
  {
    hide IsPunctuation, IsSpace, IsSingle, IsJoined, IsOpened;
    var t := s[1..];
    if t != [] {
      var n := if IsSpace(s[1]) then 2 else 1;
      StillTidy(s, n);
      if IsSpace(s[1]) { NextOfTidy(s); }
      TidyRespacesToItself(s[n..]);
      assert s[n..][1..] == s[n + 1..];
      if IsSpace(s[1]) {
        ASpaceStays(t, s[0]);
        assert t[2..] == s[3..] && t == [s[1], s[2]] + s[3..];
      } else {
        assert t == [s[1]] + s[2..];
        PutFirst(s[1], s[2..], Some(s[0]), false);
      }
    }
  }

  /**
   * The four replacements are that one pass: of untidy text everything but spaces is kept, in order, and a space stays
   * one space wherever one may stand.
   */
  lemma NormalisedIsRespaced(t: Text)
    ensures Normalised(t) == Respaced(t, None, false)
  {
    NormalisedIsTidy(t);
    var s := Normalised(t);
    if s != [] {
      assert [s[0]] + s[1..] == s;
      TidyRespacesToItself(s);
      PutFirst(s[0], s[1..], None, false);
    }
    hide IsSpace, IsPunctuation, Collapse, JoinPunctuation, JoinOpening, Trim, IsTidy;
    CollapseRespaces(t, None, false);
    JoinPunctuationRespaces(Collapse(t), None, false);
    JoinOpeningRespaces(JoinPunctuation(Collapse(t)), None, false);
    TrimRespaces(JoinOpening(JoinPunctuation(Collapse(t))));
  }

  // ---- Markup ----

  /** The elements whose content is not text. */
  const NON_TEXT_ELEMENTS: seq<string> :=
    ["audio", "iframe", "math", "noembed", "noframes", "script", "style", "svg", "template", "title", "video", "xmp"]

  predicate IsWord(u: nat) { 48 <= u <= 57 || 65 <= u <= 90 || u == 95 || 97 <= u <= 122 }

  function LowerUnit(u: nat): nat { if 65 <= u <= 90 then u + 32 else u }

  predicate NameIsAt(t: Text, i: nat, name: string) {
    i + |name| <= |t| && forall k :: 0 <= k < |name| ==> LowerUnit(t[i + k]) == name[k] as nat
  }

  /** (audio|...|xmp)\b */
  function ElementAt(t: Text, i: nat, names: seq<string>): Option<string> {
    if names == [] then None
    else if NameIsAt(t, i, names[0]) && (i + |names[0]| == |t| || !IsWord(t[i + |names[0]|])) then Some(names[0])
    else ElementAt(t, i, names[1..])
  }

  /** Where a unit next stands, from i on. */
  function IndexOf(t: Text, u: nat, i: nat): (at: Option<nat>)
    requires i <= |t|
    ensures at.Some? ==> i <= at.value < |t| && t[at.value] == u && forall k :: i <= k < at.value ==> t[k] != u
    ensures at.None? ==> forall k :: i <= k < |t| ==> t[k] != u
    decreases |t| - i
  {
    if i == |t| then None else if t[i] == u then Some(i) else IndexOf(t, u, i + 1)
  }

  /** The inside of a tag and its ">", read through quoted values; the end, if it has one. */
  function TagEnd(t: Text, i: nat): (end: Option<nat>)
    requires i <= |t|
    ensures end.Some? ==> i < end.value <= |t|
    decreases |t| - i
  {
    if i == |t| then None
    else if t[i] == GREATER then Some(i + 1)
    else if t[i] == QUOTE || t[i] == APOSTROPHE then
      var close := IndexOf(t, t[i], i + 1);
      if close.None? then None else TagEnd(t, close.value + 1)
    else TagEnd(t, i + 1)
  }

  predicate OpensComment(t: Text, i: nat) {
    i + 4 <= |t| && t[i] == LESS && t[i + 1] == BANG && t[i + 2] == DASH && t[i + 3] == DASH
  }

  /** "-->" or "--!>", or the end of the text. */
  function CommentClose(t: Text, i: nat): (end: nat)
    requires i <= |t|
    ensures i <= end <= |t|
    decreases |t| - i
  {
    if i + 3 <= |t| && t[i] == DASH && t[i + 1] == DASH && t[i + 2] == GREATER then i + 3
    else if i + 4 <= |t| && t[i] == DASH && t[i + 1] == DASH && t[i + 2] == BANG && t[i + 3] == GREATER then i + 4
    else if i == |t| then i
    else CommentClose(t, i + 1)
  }

  /** After "<!--": at once for "<!-->" and "<!--->". */
  function CommentEnd(t: Text, i: nat): (end: nat)
    requires i <= |t|
    ensures i <= end <= |t|
  {
    if i + 2 <= |t| && t[i] == DASH && t[i + 1] == GREATER then i + 2
    else if i < |t| && t[i] == GREATER then i + 1
    else CommentClose(t, i)
  }

  /** An end tag of the element at i, and where it ends. */
  function EndTagAt(t: Text, i: nat, name: string): (end: Option<nat>)
    requires i <= |t|
    ensures end.Some? ==> i < end.value <= |t|
  {
    if !(i + 2 <= |t| && t[i] == LESS && t[i + 1] == SLASH && NameIsAt(t, i + 2, name)) then None
    else
      var m := i + 2 + |name|;
      if m < |t| && (IsSpace(t[m]) || t[m] == SLASH) then
        var close := IndexOf(t, GREATER, m + 1);
        if close.None? then None else Some(close.value + 1)
      else if m < |t| && t[m] == GREATER then Some(m + 1)
      else None
  }

  /** The first end tag from i on, or the end of the text. */
  function ContentEnd(t: Text, i: nat, name: string): (end: nat)
    requires i <= |t|
    ensures i <= end <= |t|
    decreases |t| - i
  {
    if EndTagAt(t, i, name).Some? then EndTagAt(t, i, name).value
    else if i == |t| then i
    else ContentEnd(t, i + 1, name)
  }

  /** What MARKUP matches at a "<". */
  function MarkupEnd(t: Text, i: nat): (end: Option<nat>)
    requires i < |t|
    ensures end.Some? ==> i < end.value <= |t|
  {
    if t[i] != LESS then None
    else if OpensComment(t, i) then Some(CommentEnd(t, i + 4))
    else
      var tag := TagEnd(t, i + 1);
      if tag.None? then None
      else
        var element := ElementAt(t, i + 1, NON_TEXT_ELEMENTS);
        if element.None? then tag else Some(ContentEnd(t, tag.value, element.value))
  }

  /** A comment becomes nothing, any other markup a space. */
  function StripMarkup(t: Text): Text
    decreases |t|
  {
    if t == [] then []
    else
      var end := MarkupEnd(t, 0);
      if end.None? then [t[0]] + StripMarkup(t[1..])
      else (if OpensComment(t, 0) then [] else [SPACE]) + StripMarkup(t[end.value..])
  }

  function HtmlToPlainText(html: Option<Text>): Text {
    if html.None? || html.value == [] then [] else Normalised(DecodeEntities(StripMarkup(html.value)))
  }

  lemma {:induction false} NoTagsNothingStripped(t: Text)
    requires LESS !in t
    ensures StripMarkup(t) == t
  {
    if t != [] {
      assert t[0] in t && forall u :: u in t[1..] ==> u in t;
      NoTagsNothingStripped(t[1..]);
      assert t == [t[0]] + t[1..];
    }
  }

  lemma EscapedReadsAsText(text: Text)
    ensures HtmlToPlainText(Some(EscapeHtml(text))) == Normalised(text)
  {
    EscapedIsInert(text);
    NoTagsNothingStripped(EscapeHtml(text));
    DecodingUndoesEscaping(text);
    NormalisedOnce([]);
    assert IsTidy([]);
    hide EscapeHtml, StripMarkup, DecodeEntities, Normalised, IsTidy;
  }

  /** Plain text, escaped and read as HTML again, comes back exactly when it is tidy. */
  lemma EscapedReadsBackIffTidy(text: Text)
    ensures HtmlToPlainText(Some(EscapeHtml(text))) == Normalised(text)
    ensures HtmlToPlainText(Some(EscapeHtml(text))) == text <==> IsTidy(text)
  {
    hide HtmlToPlainText, EscapeHtml, Normalised, IsTidy;
    EscapedReadsAsText(text);
    NormalisedIsTidy(text);
    NormalisedOnce(text);
  }

  lemma PlainTextIsTidy(html: Option<Text>)
    ensures IsTidy(HtmlToPlainText(html))
  {
    assert IsTidy([]);
    hide StripMarkup, DecodeEntities, Normalised, IsTidy;
    if html.Some? && html.value != [] {
      NormalisedIsTidy(DecodeEntities(StripMarkup(html.value)));
    }
  }

  /** And everything htmlToPlainText returns is tidy, so escaping its result and reading it again changes nothing. */
  lemma PlainTextReadsBack(html: Option<Text>)
    ensures HtmlToPlainText(Some(EscapeHtml(HtmlToPlainText(html)))) == HtmlToPlainText(html)
  {
    EscapedReadsBackIffTidy(HtmlToPlainText(html));
    PlainTextIsTidy(html);
    hide HtmlToPlainText, EscapeHtml, Normalised, IsTidy;
  }

  // ---- What is a tag, by its parts ----

  /** A part of a tag's inside: a character that is neither ">" nor a quote, or a quoted value. */
  datatype Part = Bare | Quoted(width: nat)

  predicate PartAt(t: Text, i: nat, p: Part) {
    match p
    case Bare => i < |t| && t[i] != GREATER && t[i] != QUOTE && t[i] != APOSTROPHE
    case Quoted(width) =>
      && i + width + 2 <= |t| && (t[i] == QUOTE || t[i] == APOSTROPHE) && t[i + width + 1] == t[i]
      && forall k :: i < k <= i + width ==> t[k] != t[i]
  }

  function Width(p: Part): nat { if p.Bare? then 1 else p.width + 2 }

  /** The text from i to end is such parts, one after another. */
  ghost predicate PartsAt(t: Text, i: nat, parts: seq<Part>, end: nat)
    decreases |parts|
  {
    if parts == [] then i == end else PartAt(t, i, parts[0]) && PartsAt(t, i + Width(parts[0]), parts[1..], end)
  }

  /** The inside of a tag that begins at i and has its ">" at end. */
  ghost predicate IsTagBody(t: Text, i: nat, end: nat) {
    end < |t| && t[end] == GREATER && exists parts :: PartsAt(t, i, parts, end)
  }

  lemma PartIsPassed(t: Text, i: nat, p: Part)
    requires PartAt(t, i, p)
    ensures i + Width(p) <= |t| && TagEnd(t, i) == TagEnd(t, i + Width(p))
  {
  }

  lemma {:induction false} PartsEndAtTheBracket(t: Text, i: nat, parts: seq<Part>, end: nat)
    requires PartsAt(t, i, parts, end) && end < |t| && t[end] == GREATER
    ensures i <= |t| && TagEnd(t, i) == Some(end + 1)
    decreases |parts|
  {
    if parts != [] {
      PartIsPassed(t, i, parts[0]);
      PartsEndAtTheBracket(t, i + Width(parts[0]), parts[1..], end);
    }
  }

  lemma {:induction false} TagEndHasParts(t: Text, i: nat) returns (parts: seq<Part>)
    requires i <= |t| && TagEnd(t, i).Some?
    ensures PartsAt(t, i, parts, TagEnd(t, i).value - 1) && t[TagEnd(t, i).value - 1] == GREATER
    decreases |t| - i
  {
    if t[i] == GREATER {
      parts := [];
    } else {
      var p := if t[i] == QUOTE || t[i] == APOSTROPHE then Quoted(IndexOf(t, t[i], i + 1).value - i - 1) else Bare;
      PartIsPassed(t, i, p);
      var rest := TagEndHasParts(t, i + Width(p));
      parts := [p] + rest;
      assert parts[1..] == rest;
    }
  }

  /** The scanner ends a tag where its quoted values, read whole, leave a ">". */
  lemma TagEndIff(t: Text, i: nat, end: nat)
    requires i <= |t|
    ensures TagEnd(t, i) == Some(end + 1) <==> IsTagBody(t, i, end)
  {
    if TagEnd(t, i) == Some(end + 1) {
      var parts := TagEndHasParts(t, i);
    }
    if IsTagBody(t, i, end) {
      var parts :| PartsAt(t, i, parts, end);
      PartsEndAtTheBracket(t, i, parts, end);
    }
  }

  lemma OneMarkup(t: Text, end: nat)
    requires t != [] && !OpensComment(t, 0) && MarkupEnd(t, 0) == Some(end)
    ensures end <= |t| && StripMarkup(t) == [SPACE] + StripMarkup(t[end..])
  {
  }

  /** A whole tag is one space, whatever its quoted values hold: a ">", a "<script>", the start of a comment. */
  lemma TagsAreOneSpace(t: Text, end: nat)
    requires t != [] && t[0] == LESS && IsTagBody(t, 1, end)
    requires !(Units("<!--") <= t) && ElementAt(t, 1, NON_TEXT_ELEMENTS).None?
    ensures StripMarkup(t) == [SPACE] + StripMarkup(t[end + 1..])
  {
    OpensCommentIff(t);
    TagEndIff(t, 1, end);
    hide ElementAt, TagEnd, StripMarkup, OpensComment, IsTagBody;
    OneMarkup(t, end + 1);
  }

  lemma {:induction false} ContentRunsToTheFirstEndTag(t: Text, i: nat, name: string, at: nat)
    requires i <= at <= |t| && forall k :: i <= k < at ==> EndTagAt(t, k, name).None?
    ensures EndTagAt(t, at, name).Some? ==> ContentEnd(t, i, name) == EndTagAt(t, at, name).value
    ensures at == |t| && EndTagAt(t, at, name).None? ==> ContentEnd(t, i, name) == |t|
    decreases at - i
  {
    if i < at { ContentRunsToTheFirstEndTag(t, i + 1, name, at); }
  }

  /** An element that is not text goes with its content: to its first end tag, or to the end of the text. */
  lemma NonTextGoesWhole(t: Text, from: nat, name: string, at: nat)
    requires t != [] && t[0] == LESS && !(Units("<!--") <= t) && TagEnd(t, 1) == Some(from)
    requires ElementAt(t, 1, NON_TEXT_ELEMENTS) == Some(name)
    requires from <= at <= |t| && forall k :: from <= k < at ==> EndTagAt(t, k, name).None?
    ensures EndTagAt(t, at, name).Some? ==> StripMarkup(t) == [SPACE] + StripMarkup(t[EndTagAt(t, at, name).value..])
    ensures at == |t| ==> StripMarkup(t) == [SPACE]
  {
    OpensCommentIff(t);
    assert StripMarkup(t[|t|..]) == [];
    hide ElementAt, TagEnd, EndTagAt, StripMarkup, OpensComment;
    ContentRunsToTheFirstEndTag(t, from, name, at);
    hide ContentEnd;
    OneMarkup(t, ContentEnd(t, from, name));
  }

  // ---- Which elements, which comments, and what stays ----

  predicate IsLowerName(name: string) { forall k :: 0 <= k < |name| ==> 'a' <= name[k] <= 'z' }

  /** The name, in any case, and behind it no letter, digit or underscore. */
  predicate Spells(t: Text, i: nat, name: string) {
    && i + |name| <= |t|
    && (forall k :: 0 <= k < |name| ==> t[i + k] == name[k] as nat || t[i + k] + 32 == name[k] as nat)
    && (i + |name| < |t| ==>
      var u := t[i + |name|];
      !('0' as nat <= u <= '9' as nat || 'A' as nat <= u <= 'Z' as nat || 'a' as nat <= u <= 'z' as nat || u == '_' as nat))
  }

  lemma SpelledWithLetters(t: Text, i: nat, name: string, k: nat)
    requires IsLowerName(name) && Spells(t, i, name) && k < |name|
    ensures i + k < |t| && ('A' as nat <= t[i + k] <= 'Z' as nat || 'a' as nat <= t[i + k] <= 'z' as nat)
  {
    assert 'a' <= name[k] <= 'z';
  }

  lemma AsLong(t: Text, i: nat, name: string, other: string)
    requires IsLowerName(other) && Spells(t, i, name) && Spells(t, i, other)
    ensures |name| >= |other|
  {
    if |name| < |other| { SpelledWithLetters(t, i, other, |name|); }
  }

  lemma OneNameSpells(t: Text, i: nat, name: string, other: string)
    requires IsLowerName(name) && IsLowerName(other) && Spells(t, i, name) && Spells(t, i, other)
    ensures name == other
  {
    AsLong(t, i, name, other);
    AsLong(t, i, other, name);
    assert forall k :: 0 <= k < |name| && k < |other| ==>
      'a' <= name[k] <= 'z' && 'a' <= other[k] <= 'z' && (t[i + k] == name[k] as nat || t[i + k] + 32 == name[k] as nat);
  }

  lemma SpellsIff(t: Text, i: nat, name: string)
    requires IsLowerName(name)
    ensures NameIsAt(t, i, name) && (i + |name| == |t| || !IsWord(t[i + |name|])) <==> Spells(t, i, name)
  {
    if i + |name| <= |t| {
      forall k | 0 <= k < |name|
        ensures LowerUnit(t[i + k]) == name[k] as nat <==> t[i + k] == name[k] as nat || t[i + k] + 32 == name[k] as nat
      {
        assert 'a' <= name[k] <= 'z';
      }
    }
  }

  lemma {:induction false} ElementSpells(t: Text, i: nat, names: seq<string>, name: string)
    requires forall n :: n in names ==> IsLowerName(n)
    ensures ElementAt(t, i, names) == Some(name) <==> name in names && Spells(t, i, name)
  {
    if names != [] {
      assert forall n :: n in names[1..] ==> n in names;
      ElementSpells(t, i, names[1..], name);
      SpellsIff(t, i, names[0]);
      if Spells(t, i, names[0]) && name in names && Spells(t, i, name) {
        hide Spells, NameIsAt, IsWord;
        OneNameSpells(t, i, name, names[0]);
      }
    }
  }

  /** Twelve elements are not text, in whatever case they are written; "scripts" and "titles" are not among them. */
  lemma NonTextElements(t: Text, i: nat, name: string)
    ensures ElementAt(t, i, NON_TEXT_ELEMENTS) == Some(name) <==>
      && name in {"audio", "iframe", "math", "noembed", "noframes", "script", "style", "svg", "template", "title", "video", "xmp"}
      && Spells(t, i, name)
  {
    ElementSpells(t, i, NON_TEXT_ELEMENTS, name);
  }

  lemma CommentMarks()
    ensures Units("<!--") == [LESS, BANG, DASH, DASH]
    ensures Units("-->") == [DASH, DASH, GREATER] && Units("--!>") == [DASH, DASH, BANG, GREATER]
  {
  }

  lemma OpensCommentIff(t: Text)
    ensures OpensComment(t, 0) <==> Units("<!--") <= t
  {
    CommentMarks();
    hide Units;
    assert |t| >= 4 ==> t[..4] == [t[0], t[1], t[2], t[3]];
  }

  /** "-->" or "--!>" at k. */
  predicate ClosesComment(t: Text, k: nat, width: nat) {
    || (width == 3 && k + 3 <= |t| && t[k..k + 3] == Units("-->"))
    || (width == 4 && k + 4 <= |t| && t[k..k + 4] == Units("--!>"))
  }

  lemma ClosingEnds(t: Text, k: nat, width: nat)
    requires k <= |t| && ClosesComment(t, k, width)
    ensures k + width <= |t| && CommentClose(t, k) == k + width
  {
    CommentMarks();
    hide Units;
    assert t[k] == t[k..k + width][0] && t[k + 1] == t[k..k + width][1] && t[k + 2] == t[k..k + width][2];
    assert width == 4 ==> t[k + 3] == t[k..k + width][3];
  }

  lemma NotClosingGoesOn(t: Text, k: nat)
    requires k < |t| && !ClosesComment(t, k, 3) && !ClosesComment(t, k, 4)
    ensures CommentClose(t, k) == CommentClose(t, k + 1)
  {
    CommentMarks();
    hide Units;
    assert k + 3 <= |t| ==> t[k..k + 3] == [t[k], t[k + 1], t[k + 2]];
    assert k + 4 <= |t| ==> t[k..k + 4] == [t[k], t[k + 1], t[k + 2], t[k + 3]];
  }

  lemma {:induction false} CommentRunsToItsClose(t: Text, i: nat, at: nat)
    requires i <= at <= |t|
    requires forall k :: i <= k < at ==> !ClosesComment(t, k, 3) && !ClosesComment(t, k, 4)
    ensures CommentClose(t, i) == CommentClose(t, at)
    decreases at - i
  {
    if i < at {
      NotClosingGoesOn(t, i);
      CommentRunsToItsClose(t, i + 1, at);
    }
  }

  lemma OneComment(t: Text)
    requires OpensComment(t, 0)
    ensures StripMarkup(t) == StripMarkup(t[CommentEnd(t, 4)..])
  {
  }

  /** "<!-->" and "<!--->" are whole comments. */
  lemma EmptyCommentsAreNothing(t: Text)
    requires Units("<!--") <= t
    ensures |t| >= 5 && t[4] == GREATER ==> StripMarkup(t) == StripMarkup(t[5..])
    ensures |t| >= 6 && t[4] == DASH && t[5] == GREATER ==> StripMarkup(t) == StripMarkup(t[6..])
  {
    OpensCommentIff(t);
    CommentMarks();
    hide StripMarkup, Units;
    OneComment(t);
  }

  /** A comment leaves nothing: it runs to the first "-->" or "--!>", or to the end, whatever markup stands in it. */
  lemma CommentsAreNothing(t: Text, at: nat, width: nat)
    requires Units("<!--") <= t && 4 <= at <= |t|
    requires |t| >= 5 ==> t[4] != GREATER && !(t[4] == DASH && |t| >= 6 && t[5] == GREATER)
    requires forall k :: 4 <= k < at ==> !ClosesComment(t, k, 3) && !ClosesComment(t, k, 4)
    ensures ClosesComment(t, at, width) ==> at + width <= |t| && StripMarkup(t) == StripMarkup(t[at + width..])
    ensures at == |t| ==> StripMarkup(t) == []
  {
    OpensCommentIff(t);
    CommentMarks();
    hide StripMarkup, ClosesComment, Units;
    OneComment(t);
    CommentRunsToItsClose(t, 4, at);
    if ClosesComment(t, at, width) { ClosingEnds(t, at, width); }
    if at == |t| { NothingStripped(t[|t|..]); }
  }

  lemma NothingStripped(t: Text)
    requires t == []
    ensures StripMarkup(t) == []
  {
  }

  /** What is neither a comment nor a whole tag stays: a "<" that no ">" ends is a "<". */
  lemma TheRestStays(t: Text)
    requires t != [] && !(Units("<!--") <= t) && (t[0] == LESS ==> !exists end: nat :: IsTagBody(t, 1, end))
    ensures StripMarkup(t) == [t[0]] + StripMarkup(t[1..])
  {
    OpensCommentIff(t);
    hide Units;
    if t[0] == LESS && TagEnd(t, 1).Some? {
      TagEndIff(t, 1, TagEnd(t, 1).value - 1);
      assert false;
    }
  }

  lemma EndTagsName(t: Text, k: nat, name: string, end: nat)
    requires k <= |t|
    ensures EndTagAt(t, k, name) == Some(end) <==>
      && k + 2 + |name| < end <= |t| && t[k] == LESS && t[k + 1] == SLASH && t[end - 1] == GREATER
      && (forall j :: 0 <= j < |name| ==> LowerUnit(t[k + 2 + j]) == name[j] as nat)
      && GREATER !in t[k + 2 + |name|..end - 1]
      && (k + 2 + |name| < end - 1 ==> IsSpace(t[k + 2 + |name|]) || t[k + 2 + |name|] == SLASH)
  {
    var m := k + 2 + |name|;
    if EndTagAt(t, k, name) == Some(end) {
      hide IsSpace, LowerUnit;
    } else if m < end <= |t| && GREATER !in t[m..end - 1] {
      assert forall j :: m <= j < end - 1 ==> t[j] == t[m..end - 1][j - m];
      hide IsSpace, LowerUnit;
    }
  }
}
