/** UTF-8 as `fs::read_to_string` checks it (RFC 3629, section 4). */
module Utf8 {
  import opened Wrappers

  newtype Byte = b: int | 0 <= b < 256

  type Bytes = seq<Byte>

  predicate IsContinuation(b: Byte) {
    0x80 <= b < 0xC0
  }

  /** How long the character is that begins with this byte; None for a byte that begins none. */
  function Announced(first: Byte): Option<nat> {
    if first < 0x80 then Some(1)
    else if 0xC2 <= first < 0xE0 then Some(2)
    else if 0xE0 <= first < 0xF0 then Some(3)
    else if 0xF0 <= first < 0xF5 then Some(4)
    else None
  }

  /** The second byte leaves out overlong forms, surrogates and what lies beyond the last code point. */
  predicate SecondFits(first: Byte, second: Byte) {
    && IsContinuation(second)
    && (first == 0xE0 ==> second >= 0xA0)
    && (first == 0xED ==> second < 0xA0)
    && (first == 0xF0 ==> second >= 0x90)
    && (first == 0xF4 ==> second < 0x90)
  }

  /** The length of the character at the front; None when there is none. */
  function FirstLength(s: Bytes): (n: Option<nat>)
    ensures n.Some? ==> 0 < n.value <= |s|
    ensures n.Some? ==> !IsContinuation(s[0]) && forall i :: 0 < i < n.value ==> IsContinuation(s[i])
  {
    if s == [] then None
    else
      match Announced(s[0])
      case None => None
      case Some(n) =>
        if && |s| >= n
           && (n >= 2 ==> SecondFits(s[0], s[1]))
           && (n >= 3 ==> IsContinuation(s[2]))
           && (n >= 4 ==> IsContinuation(s[3]))
        then Some(n) else None
  }

  function CodePoint(s: Bytes): (c: char)
    requires FirstLength(s).Some?
    ensures s[0] < 0x80 ==> c == s[0] as char
  {
    var n := FirstLength(s).value;
    if n == 1 then s[0] as char
    else if n == 2 then ((s[0] as int - 0xC0) * 64 + (s[1] as int - 0x80)) as char
    else if n == 3 then
      ((s[0] as int - 0xE0) * 4096 + (s[1] as int - 0x80) * 64 + (s[2] as int - 0x80)) as char
    else
      ((s[0] as int - 0xF0) * 262144 + (s[1] as int - 0x80) * 4096 + (s[2] as int - 0x80) * 64
       + (s[3] as int - 0x80)) as char
  }

  /** The text of some bytes; None when they are not UTF-8. */
  function Decode(s: Bytes): Option<string>
    decreases |s|
  {
    if s == [] then Some("")
    else
      match FirstLength(s)
      case None => None
      case Some(n) =>
        match Decode(s[n..])
        case None => None
        case Some(rest) => Some([CodePoint(s)] + rest)
  }

  /** The bytes of a text of ASCII characters. */
  predicate IsAscii(text: string) {
    forall i :: 0 <= i < |text| ==> text[i] as int < 0x80
  }

  function Ascii(text: string): (s: Bytes)
    requires IsAscii(text)
    ensures |s| == |text| && forall i :: 0 <= i < |s| ==> s[i] as char == text[i] && s[i] < 0x80
  {
    seq(|text|, i requires 0 <= i < |text| => text[i] as int as Byte)
  }

  // ----- cutting and joining

  /** A character is recognised by its own bytes, whatever follows. */
  lemma FirstOfMore(s: Bytes, more: Bytes)
    requires FirstLength(s).Some?
    ensures FirstLength(s + more) == FirstLength(s) && CodePoint(s + more) == CodePoint(s)
  {
    assert forall i :: 0 <= i < |s| ==> (s + more)[i] == s[i];
  }

  /** No character goes from one text into another that does not begin inside a character. */
  lemma FirstIsNotAcross(s: Bytes, more: Bytes)
    requires s != [] && FirstLength(s).None?
    requires more != [] ==> !IsContinuation(more[0])
    ensures FirstLength(s + more).None?
  {
    var whole := s + more;
    assert more != [] ==> whole[|s|] == more[0];
    if FirstLength(whole).Some? {
      var n := FirstLength(whole).value;
      assert forall i :: 0 <= i < |s| ==> whole[i] == s[i];
    }
  }

  /** One text after the other, if both are there. */
  function Both(a: Option<string>, b: Option<string>): Option<string> {
    if a.Some? && b.Some? then Some(a.value + b.value) else None
  }

  lemma DecodeFirst(s: Bytes, more: Bytes)
    requires FirstLength(s).Some?
    ensures var rest := Decode(s[FirstLength(s).value..] + more);
            Decode(s + more) == if rest.Some? then Some([CodePoint(s)] + rest.value) else None
  {
    FirstOfMore(s, more);
    var n := FirstLength(s).value;
    assert (s + more)[n..] == s[n..] + more;
  }

  lemma PrependText(c: char, a: string, b: string)
    ensures [c] + (a + b) == ([c] + a) + b
  {
  }

  /** Two texts in a row are UTF-8 exactly if both are, provided the second does not begin inside a
      character. */
  lemma {:induction false} DecodeConcat(s: Bytes, more: Bytes)
    requires more != [] ==> !IsContinuation(more[0])
    ensures Decode(s + more) == Both(Decode(s), Decode(more))
    decreases |s|
  {
    if s == [] {
      assert s + more == more;
      assert Decode(more).Some? ==> "" + Decode(more).value == Decode(more).value;
    } else if FirstLength(s).None? {
      FirstIsNotAcross(s, more);
    } else {
      DecodeFirst(s, more);
      var rest := s[FirstLength(s).value..];
      DecodeConcat(rest, more);
      if Decode(rest).Some? && Decode(more).Some? {
        PrependText(CodePoint(s), Decode(rest).value, Decode(more).value);
      }
    }
  }

  /** After a whole text what follows is read for itself. */
  lemma {:induction false} DecodeAfterText(s: Bytes, more: Bytes)
    requires Decode(s).Some?
    ensures Decode(s + more) == Both(Decode(s), Decode(more))
    decreases |s|
  {
    if s == [] {
      assert s + more == more;
      assert Decode(more).Some? ==> "" + Decode(more).value == Decode(more).value;
    } else {
      DecodeFirst(s, more);
      var rest := s[FirstLength(s).value..];
      DecodeAfterText(rest, more);
      if Decode(more).Some? {
        PrependText(CodePoint(s), Decode(rest).value, Decode(more).value);
      }
    }
  }

  lemma {:induction false} DecodeAscii(text: string)
    requires IsAscii(text)
    ensures Decode(Ascii(text)) == Some(text)
  {
    if text != "" {
      assert Ascii(text)[1..] == Ascii(text[1..]);
      DecodeAscii(text[1..]);
      assert [text[0]] + text[1..] == text;
    }
  }

  /** A text cut short is still one exactly if the cut is not inside a character. */
  lemma {:induction false} CutTextExactly(s: Bytes, n: nat)
    requires n <= |s| && Decode(s).Some?
    ensures Decode(s[..n]).Some? <==> n == |s| || !IsContinuation(s[n])
    decreases |s|
  {
    if n > 0 {
      var k := FirstLength(s).value;
      if n < k {
        CutInsideFirst(s, n);
      } else {
        assert s[..n] == s[..k] + s[k..][..n - k];
        FirstOfMore(s[..k], s[k..][..n - k]);
        FirstAlone(s);
        assert s[..n][k..] == s[k..][..n - k];
        CutTextExactly(s[k..], n - k);
      }
    } else if s != [] {
      assert s[..0] == [];
    }
  }

  lemma FirstAlone(s: Bytes)
    requires FirstLength(s).Some?
    ensures FirstLength(s[..FirstLength(s).value]) == FirstLength(s)
  {
  }

  lemma CutInsideFirst(s: Bytes, n: nat)
    requires FirstLength(s).Some? && 0 < n < FirstLength(s).value
    ensures Decode(s[..n]).None? && IsContinuation(s[n])
  {
    assert FirstLength(s[..n]).None?;
  }

  // ----- every text has its bytes

  function Cont(n: int): (b: Byte)
    ensures IsContinuation(b) && b as int == 0x80 + n % 64
  {
    (0x80 + n % 64) as Byte
  }

  /** The bytes of one character, by the table of RFC 3629, section 3. */
  function EncodeOne(c: char): Bytes {
    var n := c as int;
    if n < 0x80 then [n as Byte]
    else if n < 0x800 then [(0xC0 + n / 64) as Byte, Cont(n)]
    else if n < 0x1_0000 then [(0xE0 + n / 4096) as Byte, Cont(n / 64), Cont(n)]
    else [(0xF0 + n / 262144) as Byte, Cont(n / 4096), Cont(n / 64), Cont(n)]
  }

  function Encode(text: string): Bytes {
    if text == "" then [] else EncodeOne(text[0]) + Encode(text[1..])
  }

  lemma OneIsFirst(c: char)
    ensures var s := EncodeOne(c);
            FirstLength(s) == Some(|s|) && CodePoint(s) == c
  {
    var n := c as int;
    if n < 0x80 {
    } else if n < 0x800 {
      assert n == 64 * (n / 64) + n % 64;
    } else if n < 0x1_0000 {
      ThreeBytes(n);
    } else {
      FourBytes(n);
    }
  }

  lemma ThreeBytes(n: int)
    requires 0x800 <= n < 0x1_0000 && !(0xD800 <= n < 0xE000)
    ensures var first := (0xE0 + n / 4096) as Byte;
            Announced(first) == Some(3) && SecondFits(first, Cont(n / 64))
    ensures n == (n / 4096) * 4096 + (n / 64 % 64) * 64 + n % 64
  {
    var a, b := n / 4096, n / 64 % 64;
    assert n / 64 == a * 64 + b by {
      assert n / 64 / 64 == n / 4096;
    }
    assert n == 64 * (n / 64) + n % 64;
  }

  lemma FourBytes(n: int)
    requires 0x1_0000 <= n < 0x11_0000
    ensures var first := (0xF0 + n / 262144) as Byte;
            Announced(first) == Some(4) && SecondFits(first, Cont(n / 4096))
    ensures n == (n / 262144) * 262144 + (n / 4096 % 64) * 4096 + (n / 64 % 64) * 64 + n % 64
  {
    assert n / 64 / 64 == n / 4096 && n / 4096 / 64 == n / 262144;
    assert n == 64 * (n / 64) + n % 64;
    assert n / 64 == 64 * (n / 4096) + n / 64 % 64;
    assert n / 4096 == 64 * (n / 262144) + n / 4096 % 64;
  }

  /** Every text comes back from its bytes, whatever the length of its characters. */
  lemma {:induction false} DecodeEncode(text: string)
    ensures Decode(Encode(text)) == Some(text)
  {
    if text != "" {
      var one, rest := EncodeOne(text[0]), Encode(text[1..]);
      OneIsFirst(text[0]);
      FirstOfMore(one, rest);
      assert (one + rest)[|one|..] == rest;
      DecodeEncode(text[1..]);
      assert [text[0]] + text[1..] == text;
    }
  }
}
