/** Cutting a description or a title to length, in UTF-16 code units, without splitting a character. */
module TextCuts {
  import opened Basics
  import opened HtmlEntities
  import opened PlainText

  const ELLIPSIS: nat := 0x2026
  const TITLE_MAX: nat := 60

  predicate IsHigh(u: nat) { 0xD800 <= u <= 0xDBFF }

  predicate IsLow(u: nat) { 0xDC00 <= u <= 0xDFFF }

  /** Every half of a surrogate pair has its other half beside it. */
  predicate IsWellFormed(t: Text) {
    && (forall i :: 0 <= i < |t| && IsHigh(t[i]) ==> i + 1 < |t| && IsLow(t[i + 1]))
    && (forall i :: 0 <= i < |t| && IsLow(t[i]) ==> i > 0 && IsHigh(t[i - 1]))
  }

  /** cut.lastIndexOf(" ") */
  function LastSpace(t: Text): (at: Option<nat>)
    ensures at.Some? ==> at.value < |t| && t[at.value] == SPACE && forall k :: at.value < k < |t| ==> t[k] != SPACE
    ensures at.None? ==> SPACE !in t
  {
    if t == [] then None else if t[|t| - 1] == SPACE then Some(|t| - 1) else LastSpace(t[..|t| - 1])
  }

  /** As much as fits, without the first half of a pair at its end. */
  function Whole(text: Text, maxLength: nat): Text
    requires maxLength < |text|
  {
    if maxLength > 0 && IsHigh(text[maxLength - 1]) then text[..maxLength - 1] else text[..maxLength]
  }

  /** Up to the last space, if there is one after the beginning. */
  function UpToWord(whole: Text): Text {
    if LastSpace(whole).Some? && LastSpace(whole).value > 0 then whole[..LastSpace(whole).value] else whole
  }

  /** What is kept of a text that is too long. */
  function Kept(text: Text, maxLength: nat): Text
    requires maxLength < |text|
  {
    TrimEnd(UpToWord(Whole(text, maxLength)))
  }

  function TruncateAtWord(text: Text, maxLength: nat): Text {
    if |text| <= maxLength then text else Kept(text, maxLength) + [ELLIPSIS]
  }

  /** Cutting before a unit that is not a low half splits no pair. */
  lemma CutBetweenCharacters(t: Text, n: nat)
    requires IsWellFormed(t) && n <= |t| && (n < |t| ==> !IsLow(t[n]))
    ensures IsWellFormed(t[..n])
  {
  }

  lemma {:induction false} TrimEndSplitsNothing(t: Text)
    requires IsWellFormed(t)
    ensures IsWellFormed(TrimEnd(t))
  {
    if t != [] && IsSpace(t[|t| - 1]) {
      assert !IsLow(t[|t| - 1]);
      CutBetweenCharacters(t, |t| - 1);
      TrimEndSplitsNothing(t[..|t| - 1]);
    }
  }

  /** A cut text is a front of the original that ends in no space, one ellipsis, and within the budget. */
  lemma CutsAreFronts(text: Text, maxLength: nat)
    requires maxLength < |text|
    ensures
      var kept := Kept(text, maxLength);
      && TruncateAtWord(text, maxLength) == kept + [ELLIPSIS]
      && |kept| <= maxLength && kept <= text && (kept != [] ==> !IsSpace(kept[|kept| - 1]))
  {
  }

  lemma WholeSplitsNothing(text: Text, maxLength: nat)
    requires IsWellFormed(text) && maxLength < |text|
    ensures IsWellFormed(Whole(text, maxLength))
  {
    var n := |Whole(text, maxLength)|;
    assert !IsLow(text[n]);
    CutBetweenCharacters(text, n);
  }

  lemma UpToWordSplitsNothing(whole: Text)
    requires IsWellFormed(whole)
    ensures IsWellFormed(UpToWord(whole))
  {
    var at := LastSpace(whole);
    if at.Some? && at.value > 0 { CutBetweenCharacters(whole, at.value); }
  }

  /** And a text whose characters were whole has whole characters after the cut. */
  lemma CutsSplitNoCharacter(text: Text, maxLength: nat)
    requires IsWellFormed(text)
    ensures IsWellFormed(TruncateAtWord(text, maxLength))
  {
    hide IsWellFormed, Whole, UpToWord;
    if maxLength < |text| {
      WholeSplitsNothing(text, maxLength);
      UpToWordSplitsNothing(Whole(text, maxLength));
      TrimEndSplitsNothing(UpToWord(Whole(text, maxLength)));
      OneMoreUnit(Kept(text, maxLength), ELLIPSIS);
    }
  }

  lemma OneMoreUnit(t: Text, u: nat)
    requires IsWellFormed(t) && !IsHigh(u) && !IsLow(u)
    ensures IsWellFormed(t + [u])
  {
  }

  /** A word that ends, in a space, before the budget does. */
  predicate EndsAWord(text: Text, n: nat) { 0 < n < |text| && text[n] == SPACE && !IsSpace(text[n - 1]) }

  lemma {:induction false} TrimEndKeeps(t: Text, n: nat)
    requires n <= |t| && (n > 0 ==> !IsSpace(t[n - 1]))
    ensures |TrimEnd(t)| >= n && forall k :: |TrimEnd(t)| <= k < |t| ==> IsSpace(t[k])
  {
    if t != [] && IsSpace(t[|t| - 1]) {
      hide IsSpace;
      TrimEndKeeps(t[..|t| - 1], n);
    }
  }

  /**
   * Every word that ends, in a space, within the budget is kept; and the cut is at the end of a word, unless the budget
   * ends within the first.
   */
  lemma CutsKeepWholeWords(text: Text, maxLength: nat, n: nat)
    requires maxLength < |text|
    ensures n < |Whole(text, maxLength)| && EndsAWord(text, n) ==> n <= |Kept(text, maxLength)|
    ensures
      var kept := |Kept(text, maxLength)|;
      (exists m :: 0 < m < |Whole(text, maxLength)| && text[m] == SPACE) ==> kept < maxLength && IsSpace(text[kept])
    ensures
      var kept := |Kept(text, maxLength)|;
      (forall m :: 0 < m < |Whole(text, maxLength)| ==> text[m] != SPACE) ==>
        forall k :: kept <= k < |Whole(text, maxLength)| ==> IsSpace(text[k])
  {
    var whole := Whole(text, maxLength);
    var upTo := UpToWord(whole);
    assert forall k :: 0 <= k < |whole| ==> whole[k] == text[k];
    assert forall k :: 0 <= k < |upTo| ==> upTo[k] == text[k];
    hide IsSpace, Whole;
    TrimEndKeeps(upTo, 0);
    if n < |whole| && EndsAWord(text, n) { TrimEndKeeps(upTo, n); }
  }

  /** How much fits: the budget, or one unit less when it would end between the halves of a character. */
  lemma WholeIsTheBudget(text: Text, maxLength: nat)
    requires maxLength < |text|
    ensures Whole(text, maxLength) <= text
    ensures |Whole(text, maxLength)| == if maxLength > 0 && 0xD800 <= text[maxLength - 1] <= 0xDBFF then maxLength - 1 else maxLength
  {
  }

  // ---- Titles ----

  /** The first suffix the whole name fits with; with none, the name is cut and keeps the last. */
  method FitTitle(name: Text, suffixes: seq<Text>) returns (title: Text)
    requires suffixes != [] && |suffixes[|suffixes| - 1]| < TITLE_MAX
    ensures |title| <= TITLE_MAX
    ensures (exists k :: 0 <= k < |suffixes| && |name| + |suffixes[k]| <= TITLE_MAX) ==>
      exists k :: 0 <= k < |suffixes| && title == name + suffixes[k] && forall j :: 0 <= j < k ==> |name| + |suffixes[j]| > TITLE_MAX
    ensures (forall k :: 0 <= k < |suffixes| ==> |name| + |suffixes[k]| > TITLE_MAX) ==>
      var shortest := suffixes[|suffixes| - 1];
      title == TruncateAtWord(name, TITLE_MAX - |shortest| - 1) + shortest
  {
    for i := 0 to |suffixes|
      invariant forall j :: 0 <= j < i ==> |name| + |suffixes[j]| > TITLE_MAX
    {
      if |name| + |suffixes[i]| <= TITLE_MAX {
        return name + suffixes[i];
      }
    }
    var shortest := suffixes[|suffixes| - 1];
    var room := TITLE_MAX - |shortest| - 1;
    if room < |name| { CutsAreFronts(name, room); }
    title := TruncateAtWord(name, room) + shortest;
  }
}
