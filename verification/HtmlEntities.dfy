/** Entities in and out of text, which is a sequence of UTF-16 code units. */
module HtmlEntities {
  type Text = seq<nat>

  const AMPERSAND: nat := 38
  const LESS: nat := 60
  const GREATER: nat := 62
  const QUOTE: nat := 34
  const APOSTROPHE: nat := 39
  const SEMICOLON: nat := 59
  const HASH: nat := 35
  const NBSP: nat := 0xA0

  const AMP_ENTITY: Text := [38, 97, 109, 112, 59]          // &amp;
  const LT_ENTITY: Text := [38, 108, 116, 59]               // &lt;
  const GT_ENTITY: Text := [38, 103, 116, 59]               // &gt;
  const QUOT_ENTITY: Text := [38, 113, 117, 111, 116, 59]   // &quot;
  const APOS_ENTITY: Text := [38, 97, 112, 111, 115, 59]    // &apos;
  const NBSP_ENTITY: Text := [38, 110, 98, 115, 112, 59]    // &nbsp;
  const THIRTY_NINE: Text := [38, 35, 51, 57, 59]           // &#39;

  // ---- The way out ----

  /** text.replace(/c/g, by) */
  function Replace(text: Text, c: nat, put: Text): Text {
    if text == [] then []
    else ReplacedUnit(text[0], c, put) + Replace(text[1..], c, put)
  }

  function ReplacedUnit(u: nat, c: nat, put: Text): Text { if u == c then put else [u] }

  function EscapeHtml(text: Text): Text {
    var a := Replace(text, AMPERSAND, AMP_ENTITY);
    var b := Replace(a, LESS, LT_ENTITY);
    var c := Replace(b, GREATER, GT_ENTITY);
    var d := Replace(c, QUOTE, QUOT_ENTITY);
    Replace(d, APOSTROPHE, THIRTY_NINE)
  }

  /** What one character becomes. */
  function Escaped(c: nat): Text {
    if c == AMPERSAND then AMP_ENTITY
    else if c == LESS then LT_ENTITY
    else if c == GREATER then GT_ENTITY
    else if c == QUOTE then QUOT_ENTITY
    else if c == APOSTROPHE then THIRTY_NINE
    else [c]
  }

  function EscapedEach(text: Text): Text {
    if text == [] then [] else Escaped(text[0]) + EscapedEach(text[1..])
  }

  lemma Associates(a: Text, b: Text, c: Text)
    ensures (a + b) + c == a + (b + c)
  {
  }

  lemma ReplaceFirst(text: Text, c: nat, put: Text)
    requires text != []
    ensures Replace(text, c, put) == ReplacedUnit(text[0], c, put) + Replace(text[1..], c, put)
  {
  }

  lemma {:induction false} ReplaceParts(a: Text, b: Text, c: nat, put: Text)
    ensures Replace(a + b, c, put) == Replace(a, c, put) + Replace(b, c, put)
  {
    if a == [] {
      assert a + b == b;
    } else {
      ReplaceFirst(a, c, put);
      ReplaceFirst(a + b, c, put);
      hide ReplacedUnit, Replace;
      ReplaceParts(a[1..], b, c, put);
      assert (a + b)[1..] == a[1..] + b && (a + b)[0] == a[0];
      Associates(ReplacedUnit(a[0], c, put), Replace(a[1..], c, put), Replace(b, c, put));
    }
  }

  lemma {:induction false} ReplaceAbsent(text: Text, c: nat, put: Text)
    requires c !in text
    ensures Replace(text, c, put) == text
  {
    if text != [] {
      ReplaceAbsent(text[1..], c, put);
    }
  }

  lemma ReplaceOne(c: nat, put: Text)
    ensures Replace([c], c, put) == put
  {
  }

  lemma EscapeParts(a: Text, b: Text)
    ensures EscapeHtml(a + b) == EscapeHtml(a) + EscapeHtml(b)
  {
    var a1, b1 := Replace(a, AMPERSAND, AMP_ENTITY), Replace(b, AMPERSAND, AMP_ENTITY);
    var a2, b2 := Replace(a1, LESS, LT_ENTITY), Replace(b1, LESS, LT_ENTITY);
    var a3, b3 := Replace(a2, GREATER, GT_ENTITY), Replace(b2, GREATER, GT_ENTITY);
    ReplaceParts(a, b, AMPERSAND, AMP_ENTITY);
    ReplaceParts(a1, b1, LESS, LT_ENTITY);
    ReplaceParts(a2, b2, GREATER, GT_ENTITY);
    ReplaceParts(a3, b3, QUOTE, QUOT_ENTITY);
    ReplaceParts(Replace(a3, QUOTE, QUOT_ENTITY), Replace(b3, QUOTE, QUOT_ENTITY), APOSTROPHE, THIRTY_NINE);
  }

  /** Through the five replaces, a character is touched by its own only: what "&" first is for. */
  lemma EscapeOne(c: nat)
    ensures EscapeHtml([c]) == Escaped(c)
  {
    hide Replace;
    var e := Escaped(c);
    if c == AMPERSAND { ReplaceOne(c, AMP_ENTITY); } else { ReplaceAbsent([c], AMPERSAND, AMP_ENTITY); }
    var a := if c == AMPERSAND then e else [c];
    if c == LESS { ReplaceOne(c, LT_ENTITY); } else { ReplaceAbsent(a, LESS, LT_ENTITY); }
    var b := if c == LESS then e else a;
    if c == GREATER { ReplaceOne(c, GT_ENTITY); } else { ReplaceAbsent(b, GREATER, GT_ENTITY); }
    var d := if c == GREATER then e else b;
    if c == QUOTE { ReplaceOne(c, QUOT_ENTITY); } else { ReplaceAbsent(d, QUOTE, QUOT_ENTITY); }
    var f := if c == QUOTE then e else d;
    if c == APOSTROPHE { ReplaceOne(c, THIRTY_NINE); } else { ReplaceAbsent(f, APOSTROPHE, THIRTY_NINE); }
  }

  /** Five replaces, one after another, are one map over the characters. */
  lemma {:induction false} EscapeIsOneMap(text: Text)
    ensures EscapeHtml(text) == EscapedEach(text)
  {
    if text != [] {
      assert text == [text[0]] + text[1..];
      EscapeParts([text[0]], text[1..]);
      EscapeOne(text[0]);
      EscapeIsOneMap(text[1..]);
      hide EscapeHtml;
    }
  }

  /** Nothing a reader of HTML would take for a tag or the end of an attribute. */
  predicate IsInert(text: Text) { LESS !in text && GREATER !in text && QUOTE !in text && APOSTROPHE !in text }

  lemma EscapedOneIsInert(c: nat)
    ensures IsInert(Escaped(c))
  {
  }

  lemma {:induction false} EscapedEachIsInert(text: Text)
    ensures IsInert(EscapedEach(text))
  {
    if text != [] {
      EscapedOneIsInert(text[0]);
      EscapedEachIsInert(text[1..]);
      hide Escaped;
    }
  }

  lemma EscapedIsInert(text: Text)
    ensures IsInert(EscapeHtml(text))
  {
    EscapeIsOneMap(text);
    EscapedEachIsInert(text);
  }

  // ---- The way in ----

  predicate IsDigit(c: nat) { 48 <= c <= 57 }

  predicate IsHexDigit(c: nat) { 48 <= c <= 57 || 65 <= c <= 70 || 97 <= c <= 102 }

  function DigitValue(c: nat): nat {
    if 48 <= c <= 57 then c - 48 else if 65 <= c <= 70 then c - 55 else if 97 <= c <= 102 then c - 87 else 0
  }

  const SMALL_DIGITS := "0123456789abcdef"
  const LARGE_DIGITS := "0123456789ABCDEF"

  lemma DigitCode(k: nat)
    requires k < 16
    ensures SMALL_DIGITS[k] as nat == if k < 10 then 48 + k else 87 + k
    ensures LARGE_DIGITS[k] as nat == if k < 10 then 48 + k else 55 + k
  {
  }

  /** The digits and what each is worth, in either case. */
  lemma DigitsAre(c: nat)
    ensures IsDigit(c) <==> exists k: nat :: k < 10 && c == SMALL_DIGITS[k] as nat
    ensures IsHexDigit(c) <==> exists k: nat :: k < 16 && (c == SMALL_DIGITS[k] as nat || c == LARGE_DIGITS[k] as nat)
    ensures forall k: nat :: k < 16 && (c == SMALL_DIGITS[k] as nat || c == LARGE_DIGITS[k] as nat) ==> DigitValue(c) == k
  {
    assert |SMALL_DIGITS| == 16 && |LARGE_DIGITS| == 16;
    hide SMALL_DIGITS, LARGE_DIGITS;
    forall k: nat | k < 16
      ensures SMALL_DIGITS[k] as nat == if k < 10 then 48 + k else 87 + k
      ensures LARGE_DIGITS[k] as nat == if k < 10 then 48 + k else 55 + k
    {
      DigitCode(k);
    }
    if 48 <= c <= 57 { assert c == SMALL_DIGITS[c - 48] as nat; }
    if 97 <= c <= 102 { assert c == SMALL_DIGITS[c - 87] as nat; }
    if 65 <= c <= 70 { assert c == LARGE_DIGITS[c - 55] as nat; }
  }

  /** parseInt */
  function Value(digits: Text, base: nat): nat {
    if digits == [] then 0 else Value(digits[..|digits| - 1], base) * base + DigitValue(digits[|digits| - 1])
  }

  function DigitsEnd(t: Text, i: nat): (end: nat)
    requires i <= |t|
    ensures i <= end <= |t|
    decreases |t| - i
  {
    if i < |t| && IsDigit(t[i]) then DigitsEnd(t, i + 1) else i
  }

  function HexEnd(t: Text, i: nat): (end: nat)
    requires i <= |t|
    ensures i <= end <= |t|
    decreases |t| - i
  {
    if i < |t| && IsHexDigit(t[i]) then HexEnd(t, i + 1) else i
  }

  predicate IsHexReference(t: Text) { |t| > 3 && t[0] == AMPERSAND && t[1] == HASH && (t[2] == 120 || t[2] == 88) }

  /** How much of the text ENTITY_PATTERN matches at its front; nothing when it does not. */
  function EntityLength(t: Text): (n: nat)
    ensures n <= |t|
  {
    if t == [] || t[0] != AMPERSAND then 0
    else if AMP_ENTITY <= t then 5
    else if LT_ENTITY <= t then 4
    else if GT_ENTITY <= t then 4
    else if QUOT_ENTITY <= t then 6
    else if APOS_ENTITY <= t then 6
    else if NBSP_ENTITY <= t then 6
    else if |t| > 1 && t[1] == HASH then
      var d := DigitsEnd(t, 2);
      if d > 2 && d < |t| && t[d] == SEMICOLON then d + 1
      else if IsHexReference(t) then
        var h := HexEnd(t, 3);
        if h > 3 && h < |t| && t[h] == SEMICOLON then h + 1 else 0
      else 0
    else 0
  }

  /** String.fromCodePoint, in code units. */
  function FromCodePoint(code: nat): Text {
    if code < 0x10000 then [code] else [0xD800 + (code - 0x10000) / 1024, 0xDC00 + (code - 0x10000) % 1024]
  }

  /** What a matched entity stands for; a reference to no character stays as written. */
  function Decoded(entity: Text): Text
    requires |entity| >= 4
  {
    if entity == AMP_ENTITY then [AMPERSAND]
    else if entity == LT_ENTITY then [LESS]
    else if entity == GT_ENTITY then [GREATER]
    else if entity == QUOT_ENTITY then [QUOTE]
    else if entity == APOS_ENTITY then [APOSTROPHE]
    else if entity == NBSP_ENTITY then [NBSP]
    else
      var body := entity[2..|entity| - 1];
      var isHex := body[0] == 120 || body[0] == 88;
      var code := if isHex then Value(body[1..], 16) else Value(body, 10);
      if code > 0x10FFFF || 0xD800 <= code <= 0xDFFF then entity else FromCodePoint(code)
  }

  lemma EntitiesAreLong(t: Text)
    ensures EntityLength(t) > 0 ==> EntityLength(t) >= 4
  {
  }

  /** One pass from the left; what an entity becomes is not looked at again. */
  function DecodeEntities(t: Text): Text
    decreases |t|
  {
    if t == [] then []
    else
      var n := EntityLength(t);
      if n == 0 then [t[0]] + DecodeEntities(t[1..])
      else
        EntitiesAreLong(t);
        Decoded(t[..n]) + DecodeEntities(t[n..])
  }

  // ---- There and back ----

  lemma NamedLength(entity: Text, rest: Text)
    requires entity == AMP_ENTITY || entity == LT_ENTITY || entity == GT_ENTITY || entity == QUOT_ENTITY
    ensures EntityLength(entity + rest) == |entity|
  {
    var t := entity + rest;
    assert t[0] == AMPERSAND && t[1] == entity[1] && entity <= t;
  }

  /** The decoder reads one escaped character off the front, whatever follows it. */
  lemma OnePieceBack(c: nat, rest: Text)
    ensures DecodeEntities(Escaped(c) + rest) == [c] + DecodeEntities(rest)
  {
    var e := Escaped(c);
    var t := e + rest;
    if c == APOSTROPHE {
      ThirtyNineBack(rest);
    } else if c == AMPERSAND || c == LESS || c == GREATER || c == QUOTE {
      NamedLength(e, rest);
      assert t[..|e|] == e && t[|e|..] == rest;
      assert Decoded(e) == [c];
      hide EntityLength, Decoded;
    } else {
      assert t[0] == c && t[1..] == rest && EntityLength(t) == 0;
      hide EntityLength;
    }
  }

  lemma ThirtyNineBack(rest: Text)
    ensures DecodeEntities(THIRTY_NINE + rest) == [APOSTROPHE] + DecodeEntities(rest)
  {
    var t := THIRTY_NINE + rest;
    assert t[0] == AMPERSAND && t[1] == HASH && t[2] == 51 && t[3] == 57 && t[4] == SEMICOLON;
    assert DigitsEnd(t, 4) == 4;
    assert DigitsEnd(t, 2) == 4;
    assert EntityLength(t) == 5;
    assert t[..5] == THIRTY_NINE && t[5..] == rest;
    assert THIRTY_NINE[2..4] == [51, 57];
    assert Value([51, 57], 10) == 39 by {
      assert [51, 57][..1] == [51] && [51][..0] == [];
      assert Value([51], 10) == 3;
    }
  }

  /** Decoding undoes escaping, for every text. */
  lemma {:induction false} DecodingUndoesEscaping(text: Text)
    ensures DecodeEntities(EscapeHtml(text)) == text
  {
    EscapeIsOneMap(text);
    if text == [] {
    } else {
      hide EscapeHtml;
      DecodingUndoesEscaping(text[1..]);
      EscapeIsOneMap(text[1..]);
      OnePieceBack(text[0], EscapedEach(text[1..]));
    }
  }

  // ---- What is decoded, and what is not ----

  function Units(text: string): Text { seq(|text|, i requires 0 <= i < |text| => text[i] as nat) }

  /** The six names, whatever follows them. */
  lemma NamedAreDecoded(rest: Text)
    ensures DecodeEntities(Units("&amp;") + rest) == Units("&") + DecodeEntities(rest)
    ensures DecodeEntities(Units("&lt;") + rest) == Units("<") + DecodeEntities(rest)
    ensures DecodeEntities(Units("&gt;") + rest) == Units(">") + DecodeEntities(rest)
    ensures DecodeEntities(Units("&quot;") + rest) == Units("\"") + DecodeEntities(rest)
    ensures DecodeEntities(Units("&apos;") + rest) == Units("'") + DecodeEntities(rest)
    ensures DecodeEntities(Units("&nbsp;") + rest) == [0xA0] + DecodeEntities(rest)
  {
    hide DecodeEntities, Units;
    NamedUnits();
    NamedBack(AMP_ENTITY, rest);
    NamedBack(LT_ENTITY, rest);
    NamedBack(GT_ENTITY, rest);
    NamedBack(QUOT_ENTITY, rest);
    NamedBack(APOS_ENTITY, rest);
    NamedBack(NBSP_ENTITY, rest);
  }

  lemma NamedUnits()
    ensures Units("&amp;") == AMP_ENTITY && Units("&lt;") == LT_ENTITY && Units("&gt;") == GT_ENTITY
    ensures Units("&quot;") == QUOT_ENTITY && Units("&apos;") == APOS_ENTITY && Units("&nbsp;") == NBSP_ENTITY
    ensures Units("&") == [AMPERSAND] && Units("<") == [LESS] && Units(">") == [GREATER] && Units("\"") == [QUOTE] && Units("'") == [APOSTROPHE]
  {
  }

  predicate IsNamed(entity: Text) {
    entity == AMP_ENTITY || entity == LT_ENTITY || entity == GT_ENTITY || entity == QUOT_ENTITY || entity == APOS_ENTITY || entity == NBSP_ENTITY
  }

  lemma NamedBack(entity: Text, rest: Text)
    requires IsNamed(entity)
    ensures DecodeEntities(entity + rest) == Decoded(entity) + DecodeEntities(rest)
  {
    var t := entity + rest;
    assert t[0] == AMPERSAND && t[1] == entity[1] && t[2] == entity[2] && entity <= t;
    assert EntityLength(t) == |entity|;
    assert t[..|entity|] == entity && t[|entity|..] == rest;
    hide EntityLength, Decoded;
  }

  predicate AreDigits(text: Text) { text != [] && forall i :: 0 <= i < |text| ==> 48 <= text[i] <= 57 }

  predicate AreHexDigits(text: Text) { text != [] && forall i :: 0 <= i < |text| ==> IsHexDigit(text[i]) }

  /** The character a reference names; what was written, when it names none. */
  function CharacterOr(code: nat, written: Text): Text {
    if code <= 0x10FFFF && !(0xD800 <= code <= 0xDFFF) then FromCodePoint(code) else written
  }

  lemma {:induction false} DigitsRun(t: Text, i: nat, end: nat)
    requires i <= end <= |t| && (forall k :: i <= k < end ==> IsDigit(t[k])) && (end < |t| ==> !IsDigit(t[end]))
    ensures DigitsEnd(t, i) == end
    decreases end - i
  {
    if i < end { DigitsRun(t, i + 1, end); }
  }

  lemma {:induction false} HexRun(t: Text, i: nat, end: nat)
    requires i <= end <= |t| && (forall k :: i <= k < end ==> IsHexDigit(t[k])) && (end < |t| ==> !IsHexDigit(t[end]))
    ensures HexEnd(t, i) == end
    decreases end - i
  {
    if i < end { HexRun(t, i + 1, end); }
  }

  lemma NumericLength(entity: Text, rest: Text)
    requires |entity| >= 4 && entity[0] == AMPERSAND && entity[1] == HASH && entity[|entity| - 1] == SEMICOLON
    requires AreDigits(entity[2..|entity| - 1]) || ((entity[2] == 120 || entity[2] == 88) && AreHexDigits(entity[3..|entity| - 1]))
    ensures EntityLength(entity + rest) == |entity|
  {
    var t, n := entity + rest, |entity| - 1;
    assert t[0] == AMPERSAND && t[1] == HASH && t[2] == entity[2] && t[n] == SEMICOLON;
    if AreDigits(entity[2..n]) {
      assert forall k :: 2 <= k < n ==> t[k] == entity[2..n][k - 2];
      DigitsRun(t, 2, n);
    } else {
      assert forall k :: 3 <= k < n ==> t[k] == entity[3..n][k - 3];
      DigitsRun(t, 2, 2);
      HexRun(t, 3, n);
    }
  }

  lemma NumericBack(entity: Text, rest: Text)
    requires |entity| >= 4 && EntityLength(entity + rest) == |entity|
    ensures DecodeEntities(entity + rest) == Decoded(entity) + DecodeEntities(rest)
  {
    var t := entity + rest;
    assert t[..|entity|] == entity && t[|entity|..] == rest && t != [];
    hide EntityLength, Decoded;
  }

  /** &#...; in decimal: the character of that number, or what was written when there is none. */
  lemma DecimalIsDecoded(digits: Text, rest: Text)
    requires AreDigits(digits)
    ensures
      var written := [AMPERSAND, HASH] + digits + [SEMICOLON];
      DecodeEntities(written + rest) == CharacterOr(Value(digits, 10), written) + DecodeEntities(rest)
  {
    var written := [AMPERSAND, HASH] + digits + [SEMICOLON];
    assert written[2..|written| - 1] == digits && written[2] == digits[0];
    NumericLength(written, rest);
    NumericBack(written, rest);
    hide EntityLength, DecodeEntities, Value, FromCodePoint;
    assert Decoded(written) == CharacterOr(Value(digits, 10), written);
  }

  /** &#x...; in hexadecimal, the same, with an x of either case. */
  lemma HexIsDecoded(digits: Text, x: nat, rest: Text)
    requires AreHexDigits(digits) && (x == 'x' as nat || x == 'X' as nat)
    ensures
      var written := [AMPERSAND, HASH, x] + digits + [SEMICOLON];
      DecodeEntities(written + rest) == CharacterOr(Value(digits, 16), written) + DecodeEntities(rest)
  {
    var written := [AMPERSAND, HASH, x] + digits + [SEMICOLON];
    assert written[3..|written| - 1] == digits && written[2] == x;
    assert written[2..|written| - 1] == [x] + digits;
    NumericLength(written, rest);
    NumericBack(written, rest);
    hide EntityLength, DecodeEntities, Value, FromCodePoint;
    assert ([x] + digits)[1..] == digits;
    assert Decoded(written) == CharacterOr(Value(digits, 16), written);
  }

  /** A character in code units: itself, or the pair whose halves put together are its number. */
  lemma CodeUnitsOf(code: nat)
    requires code <= 0x10FFFF
    ensures
      var units := FromCodePoint(code);
      if code < 0x10000 then units == [code]
      else |units| == 2 && 0xD800 <= units[0] <= 0xDBFF && 0xDC00 <= units[1] <= 0xDFFF
           && 0x10000 + (units[0] - 0xD800) * 0x400 + (units[1] - 0xDC00) == code
  {
  }

  /** The whole text is a reference: one of the six names, or a number in decimal or hexadecimal. */
  predicate IsReference(e: Text) {
    || IsNamed(e)
    || (|e| >= 4 && e[0] == AMPERSAND && e[1] == HASH && e[|e| - 1] == SEMICOLON
        && (AreDigits(e[2..|e| - 1]) || ((e[2] == 120 || e[2] == 88) && AreHexDigits(e[3..|e| - 1]))))
  }

  lemma {:induction false} DigitsEndIs(t: Text, i: nat)
    requires i <= |t|
    ensures var end := DigitsEnd(t, i); forall k :: i <= k < end ==> IsDigit(t[k])
    decreases |t| - i
  {
    if i < |t| && IsDigit(t[i]) { DigitsEndIs(t, i + 1); }
  }

  lemma {:induction false} HexEndIs(t: Text, i: nat)
    requires i <= |t|
    ensures var end := HexEnd(t, i); forall k :: i <= k < end ==> IsHexDigit(t[k])
    decreases |t| - i
  {
    if i < |t| && IsHexDigit(t[i]) { HexEndIs(t, i + 1); }
  }

  lemma DecimalMatch(t: Text, d: nat)
    requires |t| > 2 && t[0] == AMPERSAND && t[1] == HASH && d == DigitsEnd(t, 2) && 2 < d < |t| && t[d] == SEMICOLON
    ensures IsReference(t[..d + 1])
  {
    DigitsEndIs(t, 2);
    var e := t[..d + 1];
    assert e[2..|e| - 1] == t[2..d];
    hide IsNamed, DigitsEnd;
  }

  lemma HexMatch(t: Text, d: nat)
    requires IsHexReference(t) && d == HexEnd(t, 3) && 3 < d < |t| && t[d] == SEMICOLON
    ensures IsReference(t[..d + 1])
  {
    HexEndIs(t, 3);
    var e := t[..d + 1];
    assert e[3..|e| - 1] == t[3..d];
    hide IsNamed, HexEnd;
  }

  lemma MatchesAreReferences(t: Text)
    requires EntityLength(t) > 0
    ensures IsReference(t[..EntityLength(t)])
  {
    var n := EntityLength(t);
    if AMP_ENTITY <= t || LT_ENTITY <= t || GT_ENTITY <= t || QUOT_ENTITY <= t || APOS_ENTITY <= t || NBSP_ENTITY <= t {
      assert IsNamed(t[..n]);
    } else {
      var d := DigitsEnd(t, 2);
      if 2 < d < |t| && t[d] == SEMICOLON {
        DecimalMatch(t, d);
      } else {
        HexMatch(t, HexEnd(t, 3));
      }
      hide IsReference;
    }
  }

  /** And nothing else is: a character that begins no reference stays. */
  lemma NothingElseIsDecoded(t: Text)
    requires t != [] && forall n :: 0 <= n <= |t| ==> !IsReference(t[..n])
    ensures DecodeEntities(t) == [t[0]] + DecodeEntities(t[1..])
  {
    if EntityLength(t) > 0 { MatchesAreReferences(t); }
    hide EntityLength, IsReference;
  }
}
