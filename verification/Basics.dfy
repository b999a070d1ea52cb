/** What every part shares: a value that may be absent, small arithmetic on counts and lists, and the case and spacing of text. */
module Basics {
  datatype Option<+T> = None | Some(value: T)

  function Min(a: nat, b: nat): nat { if a <= b then a else b }

  function Max(a: nat, b: nat): nat { if a >= b then a else b }

  function Members(list: seq<nat>): set<nat> { set x | x in list }

  ghost predicate NoDuplicates<T>(list: seq<T>) {
    forall i, j :: 0 <= i < j < |list| ==> list[i] != list[j]
  }

  predicate IsCapital(c: char) { 'A' <= c <= 'Z' }

  function LowerChar(c: char): char { if IsCapital(c) then c - 'A' + 'a' else c }

  function Lower(text: string): (low: string)
    ensures |low| == |text| && forall i :: 0 <= i < |text| ==> low[i] == LowerChar(text[i])
  {
    seq(|text|, i requires 0 <= i < |text| => LowerChar(text[i]))
  }

  /** \s */
  predicate IsSpace(u: nat) {
    || 9 <= u <= 13 || u == 32 || u == 0xA0 || u == 0x1680 || 0x2000 <= u <= 0x200A || u == 0x2028 || u == 0x2029
    || u == 0x202F || u == 0x205F || u == 0x3000 || u == 0xFEFF
  }

  function TrimmedStart(text: string): string {
    if text != "" && IsSpace(text[0] as nat) then TrimmedStart(text[1..]) else text
  }

  function TrimmedEnd(text: string): string {
    if text != "" && IsSpace(text[|text| - 1] as nat) then TrimmedEnd(text[..|text| - 1]) else text
  }

  function Trimmed(text: string): string { TrimmedEnd(TrimmedStart(text)) }

  predicate AllSpaces(text: string) { forall i :: 0 <= i < |text| ==> IsSpace(text[i] as nat) }

  lemma {:induction false} LeadingSpacesGo(lead: string, text: string)
    requires AllSpaces(lead) && (text != "" ==> !IsSpace(text[0] as nat))
    ensures TrimmedStart(lead + text) == text
  {
    hide IsSpace;
    if lead == "" {
      assert lead + text == text;
    } else {
      assert (lead + text)[1..] == lead[1..] + text;
      LeadingSpacesGo(lead[1..], text);
    }
  }

  lemma {:induction false} TrailingSpacesGo(text: string, tail: string)
    requires AllSpaces(tail) && (text != "" ==> !IsSpace(text[|text| - 1] as nat))
    ensures TrimmedEnd(text + tail) == text
  {
    hide IsSpace;
    if tail == "" {
      assert text + tail == text;
    } else {
      var t := text + tail;
      assert t[..|t| - 1] == text + tail[..|tail| - 1];
      assert t[|t| - 1] == tail[|tail| - 1];
      TrailingSpacesGo(text, tail[..|tail| - 1]);
    }
  }

  /** Trimming takes the spaces at both ends and nothing else. */
  lemma TrimmedIs(lead: string, text: string, tail: string)
    requires AllSpaces(lead) && AllSpaces(tail)
    requires text != "" ==> !IsSpace(text[0] as nat) && !IsSpace(text[|text| - 1] as nat)
    ensures Trimmed(lead + text + tail) == text
  {
    hide IsSpace;
    if text == "" {
      assert AllSpaces(lead + tail) && lead + text + tail == lead + tail + "";
      LeadingSpacesGo(lead + tail, "");
    } else {
      assert lead + text + tail == lead + (text + tail);
      LeadingSpacesGo(lead, text + tail);
      TrailingSpacesGo(text, tail);
    }
  }
}
