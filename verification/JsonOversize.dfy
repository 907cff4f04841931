// What is left of a snapshot that is too large, and that texts can be read back from it.
module JsonOversize {
  import opened Common
  import opened ExternalJson
  import opened JsonSnapshot

  // ---- bytes ----

  // The bytes of a character in UTF-8 (section 3 of RFC 3629).
  function Utf8(c: char): seq<int> {
    var n := c as int;
    if n < 0x80 then [n]
    else if n < 0x800 then [0xC0 + n / 0x40, 0x80 + n % 0x40]
    else if n < 0x10000 then [0xE0 + n / 0x1000, 0x80 + n / 0x40 % 0x40, 0x80 + n % 0x40]
    else [0xF0 + n / 0x40000, 0x80 + n / 0x1000 % 0x40, 0x80 + n / 0x40 % 0x40, 0x80 + n % 0x40]
  }

  lemma {:induction false} BytesAreCounted(s: string, c: char)
    ensures ByteLen("") == 0 && ByteLen([c] + s) == |Utf8(c)| + ByteLen(s)
  {
    assert ([c] + s)[1..] == s;
  }

  // ---- the preview ----

  lemma {:induction false} EscapeAppend(a: string, b: string)
    ensures Escape(a + b) == Escape(a) + Escape(b)
  {
    if a == "" {
      assert a + b == b;
    } else {
      assert (a + b)[1..] == a[1..] + b;
      EscapeAppend(a[1..], b);
    }
  }

  lemma {:induction false} ByteLenIsNoLess(s: string)
    ensures ByteLen(s) >= |s|
  {
    if s != "" {
      ByteLenIsNoLess(s[1..]);
    }
  }

  lemma {:induction false} EscapeIsNoShorter(s: string)
    ensures |Escape(s)| >= |s|
  {
    if s != "" {
      EscapeIsNoShorter(s[1..]);
    }
  }

  lemma PreviewSize(size: nat, p: string)
    ensures Size(WithPreview(size, p)) == Size(WithPreview(size, "")) + ByteLen(Escape(p))
  {
    SizeWithField(Head(size), Field("_preview", Str(p)));
    SizeWithField(Head(size), Field("_preview", Str("")));
    FieldBytes(Field("_preview", Str(p)));
    FieldBytes(Field("_preview", Str("")));
    TextSize(p);
    TextSize("");
  }

  lemma TextSize(s: string)
    ensures Size(Str(s)) == ByteLen(Escape(s)) + 2
  {
    ByteLenAppend("\"" + Escape(s), "\"");
    ByteLenAppend("\"", Escape(s));
    AsciiByteLen("\"");
  }

  // Dropping as many characters as there are bytes too many is enough.
  lemma OneCutSuffices(size: nat, preview: string, excess: nat)
    requires excess < |preview|
    ensures Size(WithPreview(size, preview[..|preview| - excess])) + excess <= Size(WithPreview(size, preview))
  {
    var kept, dropped := preview[..|preview| - excess], preview[|preview| - excess..];
    assert preview == kept + dropped;
    EscapeAppend(kept, dropped);
    ByteLenAppend(Escape(kept), Escape(dropped));
    ByteLenIsNoLess(Escape(dropped));
    EscapeIsNoShorter(dropped);
    PreviewSize(size, preview);
    PreviewSize(size, kept);
  }

  function Excess(size: nat, preview: string, lim: Limits): nat {
    if Size(WithPreview(size, preview)) <= lim.maxBytes then 0 else Size(WithPreview(size, preview)) - lim.maxBytes
  }

  // The preview in the snapshot: the first one less what it has too much.
  function KeptPreview(size: nat, preview: string, lim: Limits): string {
    if Excess(size, preview, lim) >= |preview| then "" else preview[..|preview| - Excess(size, preview, lim)]
  }

  function Oversized(size: nat, preview: string, lim: Limits): Json {
    var size_ := Field("_original_size_bytes", Num(DecimalText(size)));
    var reason := Field("_reason", Str("maximum JSON snapshot size exceeded"));
    var mark := Field("_truncated", Bool(true));
    if preview != "" then Obj([mark, reason, size_, Field("_preview", Str(preview))])
    else if Size(Obj([mark, reason, size_, Field("_preview", Str(""))])) <= lim.maxBytes then Obj([mark, reason, size_])
    else Obj([mark])
  }

  lemma PreviewFields(size: nat, p: string)
    ensures WithPreview(size, p).fields
            == [Field("_truncated", Bool(true)), Field("_reason", Str("maximum JSON snapshot size exceeded")),
                Field("_original_size_bytes", Num(DecimalText(size))), Field("_preview", Str(p))]
  {
  }

  lemma ShrinkSays(size: nat, preview: string, lim: Limits)
    ensures Shrink(size, preview, lim) == Oversized(size, KeptPreview(size, preview, lim), lim)
  {
    PreviewFields(size, "");
    PreviewFields(size, KeptPreview(size, preview, lim));
    assert preview[..|preview|] == preview;
    assert WithPreview(size, "") == Obj(WithPreview(size, "").fields);
    if preview != "" && Excess(size, preview, lim) > 0 {
      var kept := DropLast(preview, Excess(size, preview, lim));
      if kept != "" {
        OneCutSuffices(size, preview, Excess(size, preview, lim));
      }
    }
  }

  // The longest beginning of the text within 8192 bytes and the room there is.
  predicate LongestStart(first: string, text: string, base: nat, maxBytes: nat) {
    && first <= text && ByteLen(first) <= 8192 && (first != "" ==> base + ByteLen(first) <= maxBytes)
    && (first < text ==>
          var more := ByteLen(first) + Utf8Len(text[|first|]);
          more > 8192 || base + more > maxBytes)
  }

  lemma {:induction false} NothingIsShort(s: string)
    requires ByteLen(s) == 0
    ensures s == ""
  {
  }

  lemma StartIsLongest(text: string, base: nat, maxBytes: nat, room: nat)
    requires room == if maxBytes <= base then 0 else if maxBytes - base < 8192 then maxBytes - base else 8192
    ensures LongestStart(DecodePrefix(text, room), text, base, maxBytes)
  {
    var first := DecodePrefix(text, room);
    if room == 0 {
      NothingIsShort(first);
    }
  }

  // A compacted payload over the byte limit is replaced by its size and such a beginning of its
  // text, less what quoting it costs too much.
  lemma OversizedSays(value: Json, lim: Limits) returns (first: string)
    requires Size(Compact(value, 0, lim)) > lim.maxBytes
    ensures var text := Dumps(Compact(value, 0, lim));
            && LongestStart(first, text, Size(WithPreview(ByteLen(text), "")), lim.maxBytes)
            && Snapshot(value, lim) == Oversized(ByteLen(text), KeptPreview(ByteLen(text), first, lim), lim)
  {
    var text := Dumps(Compact(value, 0, lim));
    var size := ByteLen(text);
    first := DecodePrefix(text, PreviewBytes(size, lim));
    StartIsLongest(text, Size(WithPreview(size, "")), lim.maxBytes, PreviewBytes(size, lim));
    ShrinkSays(size, first, lim);
  }

  // ---- the size can be read back ----

  predicate IsDecimal(c: char) {
    '0' <= c <= '9'
  }

  function ReadDecimal(s: string): int {
    if s == "" then 0 else 10 * ReadDecimal(s[..|s| - 1]) + (s[|s| - 1] as int - '0' as int)
  }

  lemma {:induction false} DecimalIsReadBack(n: nat)
    ensures ReadDecimal(DecimalText(n)) == n && forall i | 0 <= i < |DecimalText(n)| :: IsDecimal(DecimalText(n)[i])
    ensures |DecimalText(n)| > 1 ==> DecimalText(n)[0] != '0'
    decreases n
  {
    var digit := ["0123456789"[n % 10]];
    assert digit[0] as int == '0' as int + n % 10 && digit[..0] == "";
    if n < 10 {
      assert ReadDecimal(digit[..0]) == 0;
    } else {
      DecimalIsReadBack(n / 10);
      var s := DecimalText(n / 10) + digit;
      assert s[..|s| - 1] == DecimalText(n / 10);
      FirstDigit(n / 10);
    }
  }

  lemma {:induction false} FirstDigit(n: nat)
    requires n > 0
    ensures DecimalText(n) != "" && DecimalText(n)[0] != '0'
    decreases n
  {
    if n >= 10 {
      FirstDigit(n / 10);
    } else {
      assert "0123456789"[n] != '0';
    }
  }

  // ---- a quoted text can be read back ----

  datatype Read = NoText | Read(text: string, rest: string)

  function With(c: char, r: Read): Read {
    match r
    case NoText => NoText
    case Read(text, rest) => Read([c] + text, rest)
  }

  function HexValue(c: char): int {
    if '0' <= c <= '9' then c as int - '0' as int else if 'a' <= c <= 'f' then 10 + c as int - 'a' as int else -1
  }

  function Unescaped(c: char): char {
    match c
    case 'n' => '\n'
    case 'r' => '\r'
    case 't' => '\t'
    case 'b' => 8 as char
    case 'f' => 12 as char
    case _ => c
  }

  // A reader of JSON texts: what stands before the next quotation mark, with its escapes taken
  // back, and what follows that mark.
  function ReadText(s: string): Read {
    if s == "" then NoText
    else if s[0] == '\"' then Read("", s[1..])
    else if s[0] != '\\' then With(s[0], ReadText(s[1..]))
    else if |s| < 2 then NoText
    else if s[1] != 'u' then With(Unescaped(s[1]), ReadText(s[2..]))
    else if |s| < 6 || s[2] != '0' || s[3] != '0' || HexValue(s[4]) < 0 || HexValue(s[5]) < 0 then NoText
    else With((16 * HexValue(s[4]) + HexValue(s[5])) as char, ReadText(s[6..]))
  }

  lemma ControlIsReadBack(c: char, tail: string)
    requires c < 32 as char
    ensures ReadText(("\\u00" + [HexDigit(c as int / 16), HexDigit(c as int % 16)]) + tail) == With(c, ReadText(tail))
  {
    var s := ("\\u00" + [HexDigit(c as int / 16), HexDigit(c as int % 16)]) + tail;
    HexIsReadBack(c as int / 16);
    HexIsReadBack(c as int % 16);
    assert s[1] == 'u' && s[2] == '0' && s[3] == '0' && s[4] == HexDigit(c as int / 16) && s[5] == HexDigit(c as int % 16);
    assert s[6..] == tail;
  }

  lemma ShortIsReadBack(letter: char, tail: string)
    requires letter != 'u'
    ensures ReadText(['\\', letter] + tail) == With(Unescaped(letter), ReadText(tail))
  {
    var s := ['\\', letter] + tail;
    assert s[1] == letter && s[2..] == tail;
  }

  lemma OtherIsReadBack(c: char, tail: string)
    requires c != '\"' && c != '\\'
    ensures ReadText([c] + tail) == With(c, ReadText(tail))
  {
    assert ([c] + tail)[1..] == tail;
  }

  lemma {:induction false} OneCharIsReadBack(c: char, tail: string)
    ensures ReadText(EscapeChar(c) + tail) == With(c, ReadText(tail))
  {
    var letter := Letter(c);
    if letter.Some? {
      assert EscapeChar(c) == ['\\', letter.value];
      ShortIsReadBack(letter.value, tail);
    } else if c < 32 as char {
      ControlIsReadBack(c, tail);
    } else {
      OtherIsReadBack(c, tail);
    }
  }

  function Letter(c: char): Option<char> {
    if c == '\"' || c == '\\' then Some(c)
    else if c == '\n' then Some('n') else if c == '\r' then Some('r') else if c == '\t' then Some('t')
    else if c == 8 as char then Some('b') else if c == 12 as char then Some('f')
    else None
  }

  lemma HexIsReadBack(d: int)
    requires 0 <= d < 16
    ensures HexValue(HexDigit(d)) == d
  {
  }

  lemma {:induction false} EscapedIsReadBack(s: string, rest: string)
    ensures ReadText(Escape(s) + "\"" + rest) == Read(s, rest)
  {
    var tail := Escape(s) + "\"" + rest;
    if s == "" {
      assert tail[0] == '\"' && tail[1..] == rest;
    } else {
      EscapedIsReadBack(s[1..], rest);
      assert tail == EscapeChar(s[0]) + (Escape(s[1..]) + "\"" + rest);
      OneCharIsReadBack(s[0], Escape(s[1..]) + "\"" + rest);
    }
  }

  // Whatever characters a text holds, it is read back from its quoted form.
  lemma QuotedIsReadBack(s: string, rest: string)
    ensures Quote(s) != "" && Quote(s)[0] == '\"' && ReadText((Quote(s) + rest)[1..]) == Read(s, rest)
  {
    assert (Quote(s) + rest)[1..] == Escape(s) + "\"" + rest;
    EscapedIsReadBack(s, rest);
  }
}
