/** The two maskers of the payment service: the card number keeps only its last four
    characters, and each word of the holder's name keeps only its first character. */
module Masking {
  import opened Builtins

  const SpaceByte: byte := 0x20
  const DashByte: byte := 0x2D
  const StarByte: byte := 0x2A

  /** `strings.ReplaceAll(s, string(b), "")` for a one-byte ASCII `b`. (A byte below 0x80
      never occurs inside the encoding of another character, so working on bytes is exact.) */
  function RemoveByte(s: seq<byte>, b: byte): (r: seq<byte>)
    ensures |r| <= |s|
    ensures forall i :: 0 <= i < |r| ==> r[i] != b
    ensures (forall i :: 0 <= i < |s| ==> s[i] != b) ==> r == s
    decreases |s|
  {
    if s == [] then []
    else (if s[0] == b then [] else [s[0]]) + RemoveByte(s[1..], b)
  }

  /** The card number with its spaces and dashes removed. */
  function StripSeparators(card: seq<byte>): (r: seq<byte>)
    ensures forall i :: 0 <= i < |r| ==> r[i] != SpaceByte && r[i] != DashByte
  {
    var withoutSpaces := RemoveByte(card, SpaceByte);
    var r := RemoveByte(withoutSpaces, DashByte);
    assert forall i :: 0 <= i < |r| ==> r[i] in withoutSpaces by {
      RemoveKeepsMembers(withoutSpaces, DashByte);
    }
    r
  }

  lemma {:induction false} RemoveKeepsMembers(s: seq<byte>, b: byte)
    ensures forall i :: 0 <= i < |RemoveByte(s, b)| ==> RemoveByte(s, b)[i] in s
    decreases |s|
  {
    if s != [] {
      RemoveKeepsMembers(s[1..], b);
      var head := if s[0] == b then [] else [s[0]];
      assert RemoveByte(s, b) == head + RemoveByte(s[1..], b);
      forall i | 0 <= i < |RemoveByte(s, b)|
        ensures RemoveByte(s, b)[i] in s
      {
        if i >= |head| {
          assert RemoveByte(s, b)[i] == RemoveByte(s[1..], b)[i - |head|];
          assert RemoveByte(s[1..], b)[i - |head|] in s[1..];
        }
      }
    }
  }

  function Stars(n: nat): (r: seq<byte>)
    ensures |r| == n
    ensures forall i :: 0 <= i < n ==> r[i] == StarByte
  {
    if n == 0 then [] else [StarByte] + Stars(n - 1)
  }

  /** `maskCard`: spaces and dashes removed; a number of at most four bytes is returned as
      it is, a longer one becomes '*'s followed by its last four bytes. */
  function MaskCard(card: seq<byte>): seq<byte> {
    var cleaned := StripSeparators(card);
    if |cleaned| <= 4 then cleaned else Stars(|cleaned| - 4) + cleaned[|cleaned| - 4..]
  }

  /** The masked number is as long as the cleaned one; up to four bytes nothing is hidden,
      beyond that everything but the last four bytes is '*' and those four are kept. */
  lemma MaskCardShape(card: seq<byte>)
    ensures var cleaned := StripSeparators(card);
            var masked := MaskCard(card);
            |masked| == |cleaned| &&
            (|cleaned| <= 4 ==> masked == cleaned) &&
            (|cleaned| > 4 ==>
               (forall i :: 0 <= i < |masked| - 4 ==> masked[i] == StarByte) &&
               masked[|masked| - 4..] == cleaned[|cleaned| - 4..])
  {
    var cleaned := StripSeparators(card);
    if |cleaned| > 4 {
      var masked := MaskCard(card);
      assert masked[|masked| - 4..] == cleaned[|cleaned| - 4..];
    }
  }

  /** Masking a masked card number changes nothing. */
  lemma MaskCardIdempotent(card: seq<byte>)
    ensures MaskCard(MaskCard(card)) == MaskCard(card)
  {
    var masked := MaskCard(card);
    var cleaned := StripSeparators(card);
    assert forall i :: 0 <= i < |masked| ==> masked[i] != SpaceByte && masked[i] != DashByte by {
      if |cleaned| > 4 {
        forall i | 0 <= i < |masked|
          ensures masked[i] != SpaceByte && masked[i] != DashByte
        {
          if i >= |cleaned| - 4 {
            assert masked[i] == cleaned[i];
          }
        }
      }
    }
    assert RemoveByte(masked, SpaceByte) == masked;
    assert StripSeparators(masked) == masked;
    if |masked| > 4 {
      assert Stars(|masked| - 4) + masked[|masked| - 4..] == masked;
    }
  }

  /** Go's `unicode.IsSpace`: the ASCII and Latin-1 spaces and the other White_Space characters. */
  predicate IsSpace(c: char) {
    var n := c as int;
    (0x09 <= n <= 0x0D) || n == 0x20 || n == 0x85 || n == 0xA0 || n == 0x1680 ||
    (0x2000 <= n <= 0x200A) || n == 0x2028 || n == 0x2029 || n == 0x202F || n == 0x205F || n == 0x3000
  }

  /** A field of `strings.Fields`: non-empty and without spaces. */
  predicate IsWord(w: string) {
    |w| > 0 && forall i :: 0 <= i < |w| ==> !IsSpace(w[i])
  }

  /** Length of the run of non-space characters at the start of `s`. */
  function WordLength(s: string): (n: nat)
    ensures n <= |s|
    ensures forall i :: 0 <= i < n ==> !IsSpace(s[i])
    ensures n < |s| ==> IsSpace(s[n])
  {
    if s == [] || IsSpace(s[0]) then 0 else 1 + WordLength(s[1..])
  }

  /** `strings.Fields`: the maximal runs of non-space characters, in order. */
  function Fields(s: string): (ws: seq<string>)
    ensures forall k :: 0 <= k < |ws| ==> IsWord(ws[k])
    decreases |s|
  {
    if s == [] then []
    else if IsSpace(s[0]) then Fields(s[1..])
    else
      var n := WordLength(s);
      [s[..n]] + Fields(s[n..])
  }

  /** `strings.Join(ws, " ")`. */
  function Join(ws: seq<string>): string
    decreases |ws|
  {
    if ws == [] then "" else if |ws| == 1 then ws[0] else ws[0] + " " + Join(ws[1..])
  }

  lemma {:induction false} WordLengthOfWord(w: string, t: string)
    requires IsWord(w)
    requires t == [] || IsSpace(t[0])
    ensures WordLength(w + t) == |w|
    decreases |w|
  {
    if |w| > 1 {
      assert (w + t)[1..] == w[1..] + t;
      WordLengthOfWord(w[1..], t);
    } else {
      assert (w + t)[1..] == t;
    }
  }

  /** A word followed by nothing or by a space is the first field. */
  lemma FieldsOfWordThen(w: string, t: string)
    requires IsWord(w)
    requires t == [] || IsSpace(t[0])
    ensures Fields(w + t) == [w] + Fields(t)
  {
    WordLengthOfWord(w, t);
    assert (w + t)[..|w|] == w;
    assert (w + t)[|w|..] == t;
  }

  /** Splitting words joined by single spaces gives the words back. */
  lemma {:induction false} FieldsOfJoin(ws: seq<string>)
    requires forall k :: 0 <= k < |ws| ==> IsWord(ws[k])
    ensures Fields(Join(ws)) == ws
    decreases |ws|
  {
    if |ws| == 1 {
      FieldsOfWordThen(ws[0], []);
      assert ws[0] + [] == ws[0];
    } else if |ws| > 1 {
      var rest := " " + Join(ws[1..]);
      assert Join(ws) == ws[0] + rest;
      FieldsOfWordThen(ws[0], rest);
      assert rest[1..] == Join(ws[1..]);
      FieldsOfJoin(ws[1..]);
    }
  }

  /** What `maskName` intends for one word: its first character, then one '*' per further
      character. */
  function MaskWord(w: string): string {
    if |w| > 1 then [w[0]] + Repeat('*', |w| - 1) else w
  }

  /** What `maskName` does to one word as written: `len` and `part[0]` count and take
      UTF-8 bytes, and `string(part[0])` turns the first byte into the character with that
      code point. */
  function MaskWordAsWritten(w: string): string {
    if Utf8Length(w) > 1 then [Utf8LeadByte(w[0]) as char] + Repeat('*', Utf8Length(w) - 1) else w
  }

  function MaskWords(ws: seq<string>): (r: seq<string>)
    ensures |r| == |ws|
    ensures forall k :: 0 <= k < |ws| ==> r[k] == MaskWord(ws[k])
  {
    if ws == [] then [] else [MaskWord(ws[0])] + MaskWords(ws[1..])
  }

  function MaskWordsAsWritten(ws: seq<string>): (r: seq<string>)
    ensures |r| == |ws|
    ensures forall k :: 0 <= k < |ws| ==> r[k] == MaskWordAsWritten(ws[k])
  {
    if ws == [] then [] else [MaskWordAsWritten(ws[0])] + MaskWordsAsWritten(ws[1..])
  }

  /** `maskName` with character counts: the words, each masked, joined by single spaces. */
  function MaskNameSpec(name: string): string {
    Join(MaskWords(Fields(name)))
  }

  /** `maskName` as written, counting bytes. */
  function MaskNameAsWritten(name: string): string {
    Join(MaskWordsAsWritten(Fields(name)))
  }

  /** `maskName`: the fields are rewritten one by one in place, then joined. */
  method MaskName(name: string) returns (r: string)
    ensures r == MaskNameSpec(name)
  {
    var fields := Fields(name);
    var parts := fields;
    for i := 0 to |parts|
      invariant |parts| == |fields|
      invariant forall k :: 0 <= k < i ==> parts[k] == MaskWord(fields[k])
      invariant forall k :: i <= k < |parts| ==> parts[k] == fields[k]
    {
      if |parts[i]| > 1 {
        parts := parts[i := [parts[i][0]] + Repeat('*', |parts[i]| - 1)];
      }
    }
    assert parts == MaskWords(fields);
    r := Join(parts);
  }

  /** A masked word is still a word, of the same length, keeping its first character and
      hiding the rest; masking it again changes nothing. */
  lemma MaskWordFacts(w: string)
    requires IsWord(w)
    ensures IsWord(MaskWord(w)) && |MaskWord(w)| == |w| && MaskWord(w)[0] == w[0]
    ensures forall i :: 1 <= i < |w| ==> MaskWord(w)[i] == '*'
    ensures MaskWord(MaskWord(w)) == MaskWord(w)
  {
    if |w| > 1 {
      var m := MaskWord(w);
      assert m[1..] == Repeat('*', |w| - 1);
      assert m == [m[0]] + Repeat('*', |m| - 1);
    }
  }

  /** The masked name consists of the name's words in order, each masked: first character
      kept, every further character replaced by '*'. */
  lemma MaskNameWords(name: string)
    ensures var ws := Fields(name);
            var ms := Fields(MaskNameSpec(name));
            |ms| == |ws| &&
            forall k :: 0 <= k < |ws| ==>
              |ms[k]| == |ws[k]| && ms[k][0] == ws[k][0] &&
              forall i :: 1 <= i < |ws[k]| ==> ms[k][i] == '*'
  {
    var ws := Fields(name);
    var masked := MaskWords(ws);
    forall k | 0 <= k < |ws|
      ensures IsWord(masked[k])
    {
      MaskWordFacts(ws[k]);
    }
    FieldsOfJoin(masked);
    forall k | 0 <= k < |ws|
      ensures |masked[k]| == |ws[k]| && masked[k][0] == ws[k][0]
      ensures forall i :: 1 <= i < |ws[k]| ==> masked[k][i] == '*'
    {
      MaskWordFacts(ws[k]);
    }
  }

  /** Masking a masked name changes nothing. */
  lemma MaskNameIdempotent(name: string)
    ensures MaskNameSpec(MaskNameSpec(name)) == MaskNameSpec(name)
  {
    var ws := Fields(name);
    var masked := MaskWords(ws);
    forall k | 0 <= k < |ws|
      ensures IsWord(masked[k]) && MaskWord(masked[k]) == masked[k]
    {
      MaskWordFacts(ws[k]);
    }
    FieldsOfJoin(masked);
    assert MaskWords(masked) == masked;
  }

  /** Every field of an ASCII text is ASCII. */
  lemma {:induction false} FieldsOfAscii(s: string)
    requires forall i :: 0 <= i < |s| ==> s[i] as int < 0x80
    ensures forall k, i :: 0 <= k < |Fields(s)| && 0 <= i < |Fields(s)[k]| ==> Fields(s)[k][i] as int < 0x80
    decreases |s|
  {
    if s != [] {
      if IsSpace(s[0]) {
        FieldsOfAscii(s[1..]);
      } else {
        var n := WordLength(s);
        FieldsOfAscii(s[n..]);
        assert Fields(s) == [s[..n]] + Fields(s[n..]);
      }
    }
  }

  /** On ASCII names, which is what the authors evidently tried, bytes and characters agree
      and the code as written masks as intended. */
  lemma MaskNameAgreesOnAscii(name: string)
    requires forall i :: 0 <= i < |name| ==> name[i] as int < 0x80
    ensures MaskNameAsWritten(name) == MaskNameSpec(name)
  {
    var ws := Fields(name);
    FieldsOfAscii(name);
    forall k | 0 <= k < |ws|
      ensures MaskWordAsWritten(ws[k]) == MaskWord(ws[k])
    {
      assert forall i :: 0 <= i < |ws[k]| ==> ws[k][i] as int < 0x80;
    }
    assert MaskWordsAsWritten(ws) == MaskWords(ws);
  }

  /** As written, a name with a non-ASCII initial is garbled and masking is not idempotent:
      "É" (two bytes) becomes "Ã*", and "Ã*" (three bytes) becomes "Ã**". */
  lemma MaskNameAsWrittenGarbles()
    ensures MaskNameAsWritten("É") == "Ã*"
    ensures MaskNameAsWritten("Ã*") == "Ã**"
    ensures MaskNameSpec("É") == "É"
  {
    FieldsOfWordThen("É", []);
    assert "É" + [] == "É";
    FieldsOfWordThen("Ã*", []);
    assert "Ã*" + [] == "Ã*";
    assert Utf8Length("É") == 2;
    assert Utf8Length("Ã*") == 3;
  }
}
