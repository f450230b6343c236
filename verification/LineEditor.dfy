/** The byte loop of `read_hidden_secret` (core/remote_admin.py): line editing without canonical terminal mode. */
module LineEditor {
  import opened Prelude

  const LIMIT := 4096

  datatype Outcome =
    | Entered(secret: seq<int>, unread: seq<int>)
    | EndOfInput
    | TooLong

  predicate IsContinuation(b: int) {
    0x80 <= b < 0xC0
  }

  predicate IsEnter(b: int) {
    b == 10 || b == 13
  }

  predicate IsErase(b: int) {
    b == 8 || b == 127
  }

  function DropContinuations(buffer: seq<int>): seq<int> {
    if buffer != [] && IsContinuation(buffer[|buffer| - 1]) then DropContinuations(buffer[..|buffer| - 1]) else buffer
  }

  function DropLast(buffer: seq<int>): seq<int> {
    if buffer == [] then [] else buffer[..|buffer| - 1]
  }

  function Erased(buffer: seq<int>): seq<int> {
    if buffer != [] && IsContinuation(buffer[|buffer| - 1]) then DropLast(DropContinuations(DropLast(buffer)))
    else DropLast(buffer)
  }

  function Process(buffer: seq<int>, input: seq<int>): Outcome
    decreases input
  {
    if input == [] then EndOfInput
    else
      var b, rest := input[0], input[1..];
      if IsEnter(b) then Entered(buffer, rest)
      else if IsErase(b) then Process(Erased(buffer), rest)
      else if |buffer| >= LIMIT then TooLong
      else Process(buffer + [b], rest)
  }

  method ReadHiddenSecret(input: seq<int>) returns (outcome: Outcome)
    ensures outcome == Process([], input)
  {
    var secret: seq<int> := [];
    var i := 0;
    while i < |input|
      invariant i <= |input|
      invariant Process(secret, input[i..]) == Process([], input)
    {
      var value := input[i];
      assert input[i..][0] == value && input[i..][1..] == input[i + 1..];
      i := i + 1;
      if value == 10 || value == 13 {
        return Entered(secret, input[i..]);
      }
      if value == 8 || value == 127 {
        ghost var before := secret;
        if |secret| > 0 {
          var removed := secret[|secret| - 1];
          secret := secret[..|secret| - 1];
          if IsContinuation(removed) {
            ghost var popped := secret;
            while |secret| > 0 && IsContinuation(secret[|secret| - 1])
              invariant DropContinuations(secret) == DropContinuations(popped)
            {
              secret := secret[..|secret| - 1];
            }
            if |secret| > 0 {
              secret := secret[..|secret| - 1];
            }
          }
        }
        assert secret == Erased(before);
      } else {
        if |secret| >= LIMIT {
          return TooLong;
        }
        secret := secret + [value];
      }
    }
    return EndOfInput;
  }

  // ---------------------------------------------------------------------------------------------------
  // Characters.

  /** A Unicode scalar value. */
  predicate IsScalar(c: int) {
    0 <= c < 0xD800 || 0xE000 <= c < 0x110000
  }

  /** Its encoding, by section 3 of RFC 3629. */
  function Encode(c: int): seq<int>
    requires IsScalar(c)
  {
    if c < 0x80 then [c]
    else if c < 0x800 then [0xC0 + c / 0x40, 0x80 + c % 0x40]
    else if c < 0x10000 then [0xE0 + c / 0x1000, 0x80 + c / 0x40 % 0x40, 0x80 + c % 0x40]
    else [0xF0 + c / 0x40000, 0x80 + c / 0x1000 % 0x40, 0x80 + c / 0x40 % 0x40, 0x80 + c % 0x40]
  }

  /** A character that is neither a line end nor an erase key. */
  type Typed = c: int | IsScalar(c) && c != 10 && c != 13 && c != 8 && c != 127 witness 65

  datatype Key = Character(c: Typed) | Backspace | Delete

  function KeyBytes(k: Key): seq<int> {
    match k
    case Character(c) => Encode(c)
    case Backspace => [8]
    case Delete => [127]
  }

  function Bytes(keys: seq<Key>): seq<int> {
    if keys == [] then [] else KeyBytes(keys[0]) + Bytes(keys[1..])
  }

  function EncodeText(text: seq<Typed>): seq<int> {
    if text == [] then [] else EncodeText(text[..|text| - 1]) + Encode(text[|text| - 1])
  }

  /** One key at the level of characters. */
  function Pressed(text: seq<Typed>, k: Key): seq<Typed> {
    match k
    case Character(c) => text + [c]
    case _ => if text == [] then [] else text[..|text| - 1]
  }

  function Edited(text: seq<Typed>, keys: seq<Key>): seq<Typed>
    decreases keys
  {
    if keys == [] then text else Edited(Pressed(text, keys[0]), keys[1..])
  }

  /** The text never needs more bytes than the buffer takes. */
  predicate Fits(text: seq<Typed>, keys: seq<Key>)
    decreases keys
  {
    |EncodeText(text)| <= LIMIT && (keys == [] || Fits(Pressed(text, keys[0]), keys[1..]))
  }

  lemma EncodeShape(c: Typed)
    ensures var e := Encode(c);
            && 1 <= |e| <= 4
            && (forall i :: 1 <= i < |e| ==> IsContinuation(e[i]))
            && !IsContinuation(e[0])
            && (forall i :: 0 <= i < |e| ==> !IsEnter(e[i]) && !IsErase(e[i]))
  {
  }

  lemma {:induction false} DropTrailing(a: seq<int>, conts: seq<int>)
    requires a != [] && !IsContinuation(a[|a| - 1])
    requires forall i :: 0 <= i < |conts| ==> IsContinuation(conts[i])
    ensures DropContinuations(a + conts) == a
  {
    if conts == [] {
      assert a + conts == a;
    } else {
      DropTrailing(a, conts[..|conts| - 1]);
      assert (a + conts)[..|a + conts| - 1] == a + conts[..|conts| - 1];
    }
  }

  /** Erasing removes exactly the last code point. */
  lemma EraseRemovesOneCharacter(before: seq<int>, c: Typed)
    ensures Erased(before + Encode(c)) == before
  {
    EncodeShape(c);
    var e := Encode(c);
    var buffer := before + e;
    var last := buffer[|buffer| - 1];
    assert last == e[|e| - 1];
    if |e| == 1 {
      assert buffer[..|buffer| - 1] == before;
    } else {
      var a := before + [e[0]];
      var conts := e[1..|e| - 1];
      assert DropLast(buffer) == a + conts;
      DropTrailing(a, conts);
      assert a[..|a| - 1] == before;
    }
  }

  /** The bytes of one character enter the buffer one by one, if they fit. */
  lemma {:induction false} BytesEnter(buffer: seq<int>, e: seq<int>, rest: seq<int>)
    requires |buffer| <= LIMIT
    requires forall i :: 0 <= i < |e| ==> !IsEnter(e[i]) && !IsErase(e[i])
    ensures Process(buffer, e + rest) ==
            if |buffer| + |e| <= LIMIT then Process(buffer + e, rest) else TooLong
    decreases e
  {
    if e == [] {
      assert e + rest == rest && buffer + e == buffer;
    } else {
      assert (e + rest)[1..] == e[1..] + rest;
      if |buffer| < LIMIT {
        BytesEnter(buffer + [e[0]], e[1..], rest);
        assert buffer + [e[0]] + e[1..] == buffer + e;
      }
    }
  }

  lemma EncodeTextAppend(text: seq<Typed>, c: Typed)
    ensures EncodeText(text + [c]) == EncodeText(text) + Encode(c)
  {
    assert (text + [c])[..|text|] == text;
  }

  lemma EraseIsOneEdit(text: seq<Typed>, erase: int, rest: seq<int>)
    requires IsErase(erase)
    ensures Process(EncodeText(text), [erase] + rest)
            == Process(EncodeText(if text == [] then [] else text[..|text| - 1]), rest)
  {
    assert ([erase] + rest)[1..] == rest;
    if text != [] {
      EraseRemovesOneCharacter(EncodeText(text[..|text| - 1]), text[|text| - 1]);
    }
    hide EncodeText, Encode, Erased;
  }

  lemma {:induction false} EncodedInitIsShorter(text: seq<Typed>)
    requires text != []
    ensures |EncodeText(text[..|text| - 1])| <= |EncodeText(text)|
  {
  }

  lemma KeyIsOneEdit(text: seq<Typed>, k: Key, rest: seq<int>)
    requires |EncodeText(text)| <= LIMIT
    ensures Process(EncodeText(text), KeyBytes(k) + rest) ==
            if |EncodeText(Pressed(text, k))| <= LIMIT then Process(EncodeText(Pressed(text, k)), rest) else TooLong
  {
    hide Process, Encode, EncodeText;
    match k {
      case Character(c) =>
        EncodeShape(c);
        EncodeTextAppend(text, c);
        BytesEnter(EncodeText(text), Encode(c), rest);
      case _ =>
        EraseIsOneEdit(text, if k.Backspace? then 8 else 127, rest);
        if text != [] {
          EncodedInitIsShorter(text);
        }
    }
  }

  lemma {:induction false} EditingFrom(text: seq<Typed>, keys: seq<Key>, enter: int, rest: seq<int>)
    requires |EncodeText(text)| <= LIMIT && IsEnter(enter)
    ensures Process(EncodeText(text), Bytes(keys) + [enter] + rest) ==
            if Fits(text, keys) then Entered(EncodeText(Edited(text, keys)), rest) else TooLong
    decreases keys
  {
    if keys == [] {
      assert Bytes(keys) + [enter] + rest == [enter] + rest;
      assert ([enter] + rest)[1..] == rest;
    } else {
      var tail := Bytes(keys[1..]) + [enter] + rest;
      assert Bytes(keys) + [enter] + rest == KeyBytes(keys[0]) + tail;
      KeyIsOneEdit(text, keys[0], tail);
      if |EncodeText(Pressed(text, keys[0]))| <= LIMIT {
        EditingFrom(Pressed(text, keys[0]), keys[1..], enter, rest);
      }
    }
  }

  /** For any keys, the bytes read are the encoding of the character-level edit, and what follows the line end is
      left unread; the input is refused exactly when the text outgrows the buffer on the way. */
  lemma EditingRespectsCharacters(keys: seq<Key>, enter: int, rest: seq<int>)
    requires enter == 10 || enter == 13
    ensures Process([], Bytes(keys) + [enter] + rest) ==
            if Fits([], keys) then Entered(EncodeText(Edited([], keys)), rest) else TooLong
  {
    EditingFrom([], keys, enter, rest);
  }

  /** Whatever the bytes, the input ends at the first line end, which is always 10 or 13, and what follows stays unread;
      without one it ends with the input. */
  lemma {:induction false} EndsAtLineEnd(buffer: seq<int>, input: seq<int>)
    requires |buffer| <= 4096
    ensures match Process(buffer, input)
            case Entered(secret, unread) =>
              && |secret| <= 4096 && |unread| < |input|
              && var n := |input| - |unread| - 1;
                 && unread == input[n + 1..] && (input[n] == 10 || input[n] == 13)
                 && forall i :: 0 <= i < n ==> input[i] != 10 && input[i] != 13
            case EndOfInput => forall i :: 0 <= i < |input| ==> input[i] != 10 && input[i] != 13
            case TooLong => true
    decreases input
  {
    if input != [] && !IsEnter(input[0]) {
      var rest := input[1..];
      if IsErase(input[0]) {
        ErasedIsShorter(buffer);
        EndsAtLineEnd(Erased(buffer), rest);
      } else if |buffer| < LIMIT {
        EndsAtLineEnd(buffer + [input[0]], rest);
      }
      assert forall i :: 1 <= i < |input| ==> input[i] == rest[i - 1];
    }
  }

  lemma {:induction false} DroppedIsShorter(buffer: seq<int>)
    ensures |DropContinuations(buffer)| <= |buffer|
  {
    if buffer != [] {
      DroppedIsShorter(buffer[..|buffer| - 1]);
    }
  }

  lemma ErasedIsShorter(buffer: seq<int>)
    ensures |Erased(buffer)| <= |buffer|
  {
    DroppedIsShorter(DropLast(buffer));
  }

  lemma Sixes(c: nat)
    ensures c == c / 0x40 * 0x40 + c % 0x40 && 0 <= c % 0x40 < 0x40
    ensures c / 0x40 == c / 0x1000 * 0x40 + c / 0x40 % 0x40 && 0 <= c / 0x40 % 0x40 < 0x40
    ensures c / 0x1000 == c / 0x40000 * 0x40 + c / 0x1000 % 0x40 && 0 <= c / 0x1000 % 0x40 < 0x40
  {
  }

  /** The bits of an encoding: each byte after the first adds six. */
  function Decoded(e: seq<int>): int {
    if |e| == 1 then e[0]
    else if |e| == 2 then (e[0] - 0xC0) * 0x40 + (e[1] - 0x80)
    else if |e| == 3 then (e[0] - 0xE0) * 0x1000 + (e[1] - 0x80) * 0x40 + (e[2] - 0x80)
    else if |e| == 4 then (e[0] - 0xF0) * 0x40000 + (e[1] - 0x80) * 0x1000 + (e[2] - 0x80) * 0x40 + (e[3] - 0x80)
    else -1
  }

  /** The encoding is the shortest one, its bits are those of the code point, and its first byte tells its length. */
  lemma EncodeMeans(c: int)
    requires IsScalar(c)
    ensures var e := Encode(c);
            && |e| == (if c < 0x80 then 1 else if c < 0x800 then 2 else if c < 0x10000 then 3 else 4)
            && Decoded(e) == c
            && (|e| == 1 <==> 0 <= e[0] < 0x80) && (|e| == 2 <==> 0xC2 <= e[0] < 0xE0)
            && (|e| == 3 <==> 0xE0 <= e[0] < 0xF0) && (|e| == 4 <==> 0xF0 <= e[0] < 0xF5)
  {
    Sixes(c);
    if c < 0x80 {
    } else if c < 0x800 {
      assert 2 <= c / 0x40 < 0x20;
    } else if c < 0x10000 {
      assert 0 <= c / 0x1000 < 0x10;
    } else {
      assert 0 <= c / 0x40000 < 5;
    }
  }
}
