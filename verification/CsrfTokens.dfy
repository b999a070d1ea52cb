/** Masking the CSRF secret: a one-time pad and the secret under it, both in hex. */
module CsrfTokens {
  import opened Basics

  const SECRET_BYTES: nat := 32

  type Bytes = seq<bv8>

  // ---- Hex ----

  predicate IsHex(c: char) { '0' <= c <= '9' || 'a' <= c <= 'f' }

  predicate AllHex(text: string) { forall i :: 0 <= i < |text| ==> IsHex(text[i]) }

  function HexDigit(n: bv8): (c: char)
    requires n < 16
    ensures IsHex(c) && HexValue(c) == n
  {
    if n == 0 then '0' else if n == 1 then '1' else if n == 2 then '2' else if n == 3 then '3'
    else if n == 4 then '4' else if n == 5 then '5' else if n == 6 then '6' else if n == 7 then '7'
    else if n == 8 then '8' else if n == 9 then '9' else if n == 10 then 'a' else if n == 11 then 'b'
    else if n == 12 then 'c' else if n == 13 then 'd' else if n == 14 then 'e' else 'f'
  }

  function HexValue(c: char): bv8
    requires IsHex(c)
  {
    if c == '0' then 0 else if c == '1' then 1 else if c == '2' then 2 else if c == '3' then 3
    else if c == '4' then 4 else if c == '5' then 5 else if c == '6' then 6 else if c == '7' then 7
    else if c == '8' then 8 else if c == '9' then 9 else if c == 'a' then 10 else if c == 'b' then 11
    else if c == 'c' then 12 else if c == 'd' then 13 else if c == 'e' then 14 else 15
  }

  lemma DigitOfValue(c: char)
    requires IsHex(c)
    ensures HexValue(c) < 16 && HexDigit(HexValue(c)) == c
  {
  }

  /** buffer.toString("hex") */
  function Hex(bytes: Bytes): (text: string)
    ensures |text| == 2 * |bytes| && AllHex(text)
  {
    if bytes == [] then ""
    else
      var b := bytes[0];
      LowNibble(b);
      [HexDigit(b >> 4), HexDigit(b & 15)] + Hex(bytes[1..])
  }

  lemma LowNibble(b: bv8)
    ensures b & 15 < 16 && b >> 4 < 16
  {
  }

  /** Buffer.from(text, "hex") */
  function Unhex(text: string): (bytes: Bytes)
    requires AllHex(text) && |text| % 2 == 0
    ensures 2 * |bytes| == |text|
  {
    if text == "" then []
    else [(HexValue(text[0]) << 4) | HexValue(text[1])] + Unhex(text[2..])
  }

  lemma Nibbles(b: bv8)
    ensures ((b >> 4) << 4) | (b & 15) == b
  {
  }

  lemma NibblesBack(high: bv8, low: bv8)
    requires high < 16 && low < 16
    ensures ((high << 4) | low) >> 4 == high && ((high << 4) | low) & 15 == low
  {
  }

  lemma {:induction false} UnhexHex(bytes: Bytes)
    ensures Unhex(Hex(bytes)) == bytes
  {
    if bytes != [] {
      var b := bytes[0];
      UnhexHex(bytes[1..]);
      LowNibble(b);
      Nibbles(b);
      assert Hex(bytes)[2..] == Hex(bytes[1..]);
    }
  }

  lemma {:induction false} HexUnhex(text: string)
    requires AllHex(text) && |text| % 2 == 0
    ensures Hex(Unhex(text)) == text
  {
    if text != "" {
      HexUnhex(text[2..]);
      DigitOfValue(text[0]);
      DigitOfValue(text[1]);
      NibblesBack(HexValue(text[0]), HexValue(text[1]));
      assert Unhex(text)[1..] == Unhex(text[2..]);
      assert text == [text[0], text[1]] + text[2..];
    }
  }

  // ---- The pad ----

  function Xor(a: Bytes, b: Bytes): (out: Bytes)
    requires |a| == |b|
    ensures |out| == |a| && forall i :: 0 <= i < |a| ==> out[i] == a[i] ^ b[i]
  {
    seq(|a|, i requires 0 <= i < |a| => a[i] ^ b[i])
  }

  method XorBytes(a: array<bv8>, b: array<bv8>) returns (out: array<bv8>)
    requires a.Length == SECRET_BYTES == b.Length
    ensures fresh(out) && out[..] == Xor(a[..], b[..])
  {
    out := new bv8[SECRET_BYTES];
    for index := 0 to SECRET_BYTES
      invariant forall i :: 0 <= i < index ==> out[i] == a[i] ^ b[i]
    {
      out[index] := a[index] ^ b[index];
    }
  }

  lemma XorTwice(pad: Bytes, secret: Bytes)
    requires |pad| == |secret|
    ensures Xor(pad, Xor(pad, secret)) == secret
  {
  }

  // ---- Tokens ----

  predicate IsSecret(text: string) { |text| == 2 * SECRET_BYTES && AllHex(text) }

  predicate IsMasked(text: string) { |text| == 4 * SECRET_BYTES && AllHex(text) }

  function MaskToken(secret: string, pad: Bytes): string
    requires IsSecret(secret) && |pad| == SECRET_BYTES
  {
    Hex(pad) + Hex(Xor(pad, Unhex(secret)))
  }

  function UnmaskToken(submitted: string): Option<string> {
    if !IsMasked(submitted) then None
    else Some(Hex(Xor(Unhex(submitted[..2 * SECRET_BYTES]), Unhex(submitted[2 * SECRET_BYTES..]))))
  }

  /** Whatever the pad, a masked secret unmasks to itself. */
  lemma UnmaskingUndoesMasking(secret: string, pad: Bytes)
    requires IsSecret(secret) && |pad| == SECRET_BYTES
    ensures UnmaskToken(MaskToken(secret, pad)) == Some(secret)
  {
    var token := MaskToken(secret, pad);
    var masked := Xor(pad, Unhex(secret));
    assert token[..2 * SECRET_BYTES] == Hex(pad) && token[2 * SECRET_BYTES..] == Hex(masked);
    UnhexHex(pad);
    UnhexHex(masked);
    XorTwice(pad, Unhex(secret));
    HexUnhex(secret);
  }

  /** And a token is nothing else: any that unmasks to a secret is that secret under some pad. */
  lemma EveryTokenIsAMasking(token: string, secret: string)
    requires UnmaskToken(token) == Some(secret)
    ensures IsSecret(secret) && exists pad :: |pad| == SECRET_BYTES && token == MaskToken(secret, pad)
  {
    var front, back := token[..2 * SECRET_BYTES], token[2 * SECRET_BYTES..];
    var pad, masked := Unhex(front), Unhex(back);
    UnhexHex(Xor(pad, masked));
    XorTwice(pad, masked);
    HexUnhex(front);
    HexUnhex(back);
    assert token == front + back;
    assert token == MaskToken(secret, pad);
  }
}
