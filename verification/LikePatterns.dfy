/** LIKE, the escaping of what a visitor typed before it becomes part of a pattern, and ILIKE. */
module LikePatterns {
  import opened Basics

  /** /[\\%_]/ */
  predicate IsWild(c: char) { c == '\\' || c == '%' || c == '_' }

  function EscapeLike(term: string): string {
    if term == "" then "" else (if IsWild(term[0]) then ['\\', term[0]] else [term[0]]) + EscapeLike(term[1..])
  }

  /** A pattern must not end in its escape character; the server refuses one that does. */
  predicate Like(text: string, pattern: string)
    decreases |pattern|, |text|
  {
    if pattern == "" then text == ""
    else if pattern[0] == '%' then Like(text, pattern[1..]) || (text != "" && Like(text[1..], pattern))
    else if pattern[0] == '\\' then |pattern| > 1 && text != "" && text[0] == pattern[1] && Like(text[1..], pattern[2..])
    else text != "" && (pattern[0] == '_' || text[0] == pattern[0]) && Like(text[1..], pattern[1..])
  }

  predicate ILike(text: string, pattern: string) { Like(Lower(text), Lower(pattern)) }

  /** Somewhere in the text, as it stands. */
  predicate Contains(text: string, term: string) { term <= text || (text != "" && Contains(text[1..], term)) }

  lemma {:induction false} ContainsIsSomewhere(text: string, term: string)
    ensures Contains(text, term) <==> exists i :: 0 <= i <= |text| && term <= text[i..]
  {
    assert term <= text ==> term <= text[0..];
    if text != "" {
      ContainsIsSomewhere(text[1..], term);
      assert forall i :: 0 <= i <= |text| - 1 ==> text[1..][i..] == text[i + 1..];
      assert forall i :: 0 < i <= |text| ==> text[i..] == text[1..][i - 1..];
    }
  }

  /** An escaped term matches itself and nothing else, whatever the pattern goes on with. */
  lemma {:induction false} EscapedMatchesItself(text: string, term: string, rest: string)
    ensures Like(text, EscapeLike(term) + rest) <==> term <= text && Like(text[|term|..], rest)
  {
    if term == "" {
      assert EscapeLike(term) + rest == rest && text[0..] == text;
    } else {
      var one := if IsWild(term[0]) then ['\\', term[0]] else [term[0]];
      assert EscapeLike(term) + rest == one + (EscapeLike(term[1..]) + rest);
      assert (one + (EscapeLike(term[1..]) + rest))[|one|..] == EscapeLike(term[1..]) + rest;
      if text != "" {
        EscapedMatchesItself(text[1..], term[1..], rest);
        assert term <= text <==> term[0] == text[0] && term[1..] <= text[1..];
        if term <= text { assert text[1..][|term| - 1..] == text[|term|..]; }
      }
    }
  }

  lemma {:induction false} AnythingMatches(text: string)
    ensures Like(text, "%")
  {
    assert "%"[1..] == "";
    if text != "" { AnythingMatches(text[1..]); }
  }

  /** `${escaped}%` is beginning with the term, percent signs and underscores included. */
  lemma BeginsWith(text: string, term: string)
    ensures Like(text, EscapeLike(term) + "%") <==> term <= text
  {
    EscapedMatchesItself(text, term, "%");
    if term <= text { AnythingMatches(text[|term|..]); }
  }

  /** `%${escaped}%` is containing the term. */
  lemma {:induction false} HasSomewhere(text: string, term: string)
    ensures Like(text, "%" + EscapeLike(term) + "%") <==> Contains(text, term)
  {
    var pattern := "%" + EscapeLike(term) + "%";
    assert pattern[1..] == EscapeLike(term) + "%";
    BeginsWith(text, term);
    if text != "" { HasSomewhere(text[1..], term); }
  }

  ghost predicate HasWild(term: string) { exists i :: 0 <= i < |term| && IsWild(term[i]) }

  lemma {:induction false} NothingToEscape(term: string)
    requires !HasWild(term)
    ensures EscapeLike(term) == term
  {
    if term != "" {
      assert forall i :: 0 <= i < |term| - 1 ==> term[1..][i] == term[i + 1];
      NothingToEscape(term[1..]);
    }
  }

  /** A text the term matches when it is read as a pattern, and that is not the term. */
  function Other(term: string): string {
    if term == "" then ""
    else if term[0] == '%' then Other(term[1..])
    else if term[0] == '_' then "a" + Other(term[1..])
    else if term[0] != '\\' then [term[0]] + Other(term[1..])
    else if |term| == 1 then "%" else [term[1]] + Other(term[2..])
  }

  lemma {:induction false} OtherIsOther(term: string)
    ensures |Other(term)| <= |term| && (Other(term) == term ==> !HasWild(term))
  {
    if term != "" && term[0] == '\\' && |term| > 1 {
      OtherIsOther(term[2..]);
    } else if term != "" && term[0] != '\\' {
      OtherIsOther(term[1..]);
      assert Other(term) == term ==> Other(term[1..]) == term[1..];
      assert forall i :: 0 < i < |term| ==> term[i] == term[1..][i - 1];
    }
  }

  lemma {:induction false} OtherMatches(term: string)
    ensures Like(Other(term), term + "%")
  {
    if term == "" {
      AnythingMatches("");
      assert term + "%" == "%";
    } else if term[0] != '\\' {
      OtherMatches(term[1..]);
      assert (term + "%")[1..] == term[1..] + "%";
    } else if |term| > 1 {
      OtherMatches(term[2..]);
      assert (term + "%")[2..] == term[2..] + "%";
    }
  }

  lemma {:induction false} OnlyItselfFits(text: string, term: string)
    requires |text| <= |term| && Contains(text, term)
    ensures text == term
  {
    ContainsIsSomewhere(text, term);
  }

  /** What an unescaped term finds is what holds it. */
  ghost predicate FindsItself(term: string) { forall text :: Like(text, "%" + term + "%") <==> Contains(text, term) }

  /** Unescaped, a term finds just the texts it is in if and only if it has nothing to escape. */
  lemma EscapingIsNeededIff(term: string)
    ensures FindsItself(term) <==> !HasWild(term)
  {
    if HasWild(term) {
      FindsAnother(term);
    } else {
      NothingToEscape(term);
      forall text ensures Like(text, "%" + term + "%") <==> Contains(text, term) { HasSomewhere(text, term); }
    }
  }

  lemma FindsAnother(term: string)
    requires HasWild(term)
    ensures !FindsItself(term)
  {
    var other, pattern := Other(term), "%" + term + "%";
    OtherIsOther(term);
    OtherMatches(term);
    assert pattern[1..] == term + "%";
    assert Like(other, pattern);
    if Contains(other, term) { OnlyItselfFits(other, term); }
  }

  lemma {:induction false} LowerOfEscaped(term: string)
    ensures Lower(EscapeLike(term)) == EscapeLike(Lower(term))
  {
    if term != "" {
      LowerOfEscaped(term[1..]);
      assert Lower(term)[1..] == Lower(term[1..]);
    }
  }

  /** What a search means: containing the term, however either is capitalised. */
  lemma SearchIsContaining(text: string, term: string)
    ensures ILike(text, "%" + EscapeLike(term) + "%") <==> Contains(Lower(text), Lower(term))
  {
    LowerOfEscaped(term);
    assert Lower("%" + EscapeLike(term) + "%") == "%" + EscapeLike(Lower(term)) + "%";
    HasSomewhere(Lower(text), Lower(term));
  }

  lemma PrefixIsBeginning(text: string, term: string)
    ensures ILike(text, EscapeLike(term) + "%") <==> Lower(term) <= Lower(text)
  {
    LowerOfEscaped(term);
    assert Lower(EscapeLike(term) + "%") == EscapeLike(Lower(term)) + "%";
    BeginsWith(Lower(text), Lower(term));
  }
}
