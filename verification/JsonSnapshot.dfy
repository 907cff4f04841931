// The bounded snapshot around the compaction: serialization, byte limit, preview and markers.
module JsonSnapshot {
  import opened ExternalJson

  // ---- json.dumps(value, ensure_ascii=False), measured in UTF-8 bytes ----

  function Utf8Len(c: char): nat {
    if c < 128 as char then 1 else if c < 0x800 as char then 2 else if c < 0x10000 as char then 3 else 4
  }

  function ByteLen(s: string): nat {
    if s == "" then 0 else Utf8Len(s[0]) + ByteLen(s[1..])
  }

  function EscapeChar(c: char): string {
    if c == '\"' then "\\\"" else if c == '\\' then "\\\\"
    else if c == '\n' then "\\n" else if c == '\r' then "\\r" else if c == '\t' then "\\t"
    else if c == 8 as char then "\\b" else if c == 12 as char then "\\f"
    else if c < 32 as char then "\\u00" + [HexDigit(c as int / 16), HexDigit(c as int % 16)]
    else [c]
  }

  function HexDigit(d: int): char
    requires 0 <= d < 16
  {
    "0123456789abcdef"[d]
  }

  function Escape(s: string): string {
    if s == "" then "" else EscapeChar(s[0]) + Escape(s[1..])
  }

  function Quote(s: string): string {
    "\"" + Escape(s) + "\""
  }

  function Dumps(j: Json): string
    decreases j, 1
  {
    match j
    case Null => "null"
    case Bool(b) => if b then "true" else "false"
    case Num(text) => text
    case Str(s) => Quote(s)
    case Foreign(s) => Quote(s)
    case Arr(items) => "[" + DumpItems(items) + "]"
    case Obj(fields) => "{" + DumpFields(fields) + "}"
  }

  function DumpItems(items: seq<Json>): string
    decreases items, 0
  {
    if items == [] then ""
    else if |items| == 1 then Dumps(items[0])
    else Dumps(items[0]) + ", " + DumpItems(items[1..])
  }

  function DumpField(f: Field): string
    decreases f, 1
  {
    Quote(f.key) + ": " + Dumps(f.value)
  }

  function DumpFields(fields: seq<Field>): string
    decreases fields, 0
  {
    if fields == [] then ""
    else if |fields| == 1 then DumpField(fields[0])
    else DumpField(fields[0]) + ", " + DumpFields(fields[1..])
  }

  function Size(j: Json): nat {
    ByteLen(Dumps(j))
  }

  lemma {:induction false} ByteLenAppend(a: string, b: string)
    ensures ByteLen(a + b) == ByteLen(a) + ByteLen(b)
  {
    if a == "" {
      assert a + b == b;
    } else {
      ByteLenAppend(a[1..], b);
      assert (a + b)[1..] == a[1..] + b;
    }
  }

  lemma {:induction false} AsciiByteLen(s: string)
    requires forall i | 0 <= i < |s| :: s[i] < 128 as char
    ensures ByteLen(s) == |s|
  {
    if s != "" {
      AsciiByteLen(s[1..]);
    }
  }

  lemma {:induction false} DumpFieldsAppend(fields: seq<Field>, f: Field)
    ensures DumpFields(fields + [f]) == if fields == [] then DumpField(f) else DumpFields(fields) + ", " + DumpField(f)
  {
    if fields != [] {
      assert (fields + [f])[1..] == fields[1..] + [f];
      if |fields| > 1 {
        DumpFieldsAppend(fields[1..], f);
        var head := DumpField(fields[0]);
        assert head + ", " + (DumpFields(fields[1..]) + ", " + DumpField(f)) == (head + ", " + DumpFields(fields[1..])) + ", " + DumpField(f);
      }
    }
  }

  // A field appended to an object costs its own bytes and, unless it is the first, two more.
  lemma SizeWithField(fields: seq<Field>, f: Field)
    ensures Size(Obj(fields + [f])) == Size(Obj(fields)) + ByteLen(DumpField(f)) + if fields == [] then 0 else 2
  {
    DumpFieldsAppend(fields, f);
    ByteLenAppend("{", DumpFields(fields) + "}");
    ByteLenAppend(DumpFields(fields), "}");
    ByteLenAppend("{", DumpFields(fields + [f]) + "}");
    ByteLenAppend(DumpFields(fields + [f]), "}");
    assert "{" + DumpFields(fields) + "}" == "{" + (DumpFields(fields) + "}");
    assert "{" + DumpFields(fields + [f]) + "}" == "{" + (DumpFields(fields + [f]) + "}");
    if fields != [] {
      ByteLenAppend(DumpFields(fields) + ", ", DumpField(f));
      ByteLenAppend(DumpFields(fields), ", ");
      AsciiByteLen(", ");
    }
  }

  // Printable ASCII that JSON does not escape.
  predicate Plain(c: char) {
    ' ' <= c <= '~' && c != '"' && c != '\\'
  }

  lemma {:induction false} PlainEscape(s: string)
    requires forall i | 0 <= i < |s| :: Plain(s[i])
    ensures Escape(s) == s
  {
    if s != "" {
      PlainEscape(s[1..]);
    }
  }

  lemma PlainTextSize(s: string)
    requires forall i | 0 <= i < |s| :: Plain(s[i])
    ensures Size(Str(s)) == |s| + 2
  {
    PlainEscape(s);
    AsciiByteLen("\"" + s + "\"");
  }

  lemma FieldBytes(f: Field)
    ensures ByteLen(DumpField(f)) == ByteLen(Escape(f.key)) + 4 + Size(f.value)
  {
    var quoted, tail := Quote(f.key), Dumps(f.value);
    ByteLenAppend(quoted + ": ", tail);
    ByteLenAppend(quoted, ": ");
    ByteLenAppend("\"" + Escape(f.key), "\"");
    ByteLenAppend("\"", Escape(f.key));
    AsciiByteLen(": ");
    AsciiByteLen("\"");
  }

  predicate AllPlain(s: string) {
    s == "" || (Plain(s[0]) && AllPlain(s[1..]))
  }

  lemma {:induction false} AllPlainMeans(s: string)
    requires AllPlain(s)
    ensures forall i | 0 <= i < |s| :: Plain(s[i])
  {
    if s != "" {
      AllPlainMeans(s[1..]);
    }
  }

  // A plain key costs its own letters.
  lemma PlainKeyBytes(key: string)
    requires AllPlain(key)
    ensures ByteLen(Escape(key)) == |key|
  {
    AllPlainMeans(key);
    PlainEscape(key);
    AsciiByteLen(key);
  }

  lemma MarkerKeyBytes()
    ensures ByteLen(Escape("_truncated")) == 10
  {
    PlainKeyBytes("_truncated");
  }

  lemma TrueBytes()
    ensures ByteLen("true") == 4 && ByteLen("{}") == 2
  {
    AsciiByteLen("true");
    AsciiByteLen("{}");
  }

  lemma MarkerField()
    ensures ByteLen(DumpField(Marked)) == 18
  {
    FieldBytes(Marked);
    MarkerKeyBytes();
    TrueBytes();
  }

  // ---- the detector ----

  predicate Detects(j: Json) {
    match j
    case Obj(fields) =>
      (exists i | 0 <= i < |fields| :: fields[i] == Marked) || exists i | 0 <= i < |fields| :: Detects(fields[i].value)
    case Arr(items) => exists i | 0 <= i < |items| :: Detects(items[i])
    case _ => false
  }

  // ---- the snapshot ----

  const PreviewLimit := 8192

  function DecimalText(n: nat): string
    decreases n
  {
    var digit := ["0123456789"[n % 10]];
    if n < 10 then digit else DecimalText(n / 10) + digit
  }

  function Head(size: nat): seq<Field> {
    [Marked, Field("_reason", Str("maximum JSON snapshot size exceeded")), Field("_original_size_bytes", Num(DecimalText(size)))]
  }

  function WithPreview(size: nat, preview: string): Json {
    Obj(Head(size) + [Field("_preview", Str(preview))])
  }

  // Decoding the first bytes with errors ignored drops a character that is cut in two.
  function DecodePrefix(s: string, bytes: nat): (p: string)
    ensures p <= s && ByteLen(p) <= bytes
    ensures p < s ==> ByteLen(p) + Utf8Len(s[|p|]) > bytes
  {
    if s == "" || Utf8Len(s[0]) > bytes then ""
    else
      var rest := DecodePrefix(s[1..], bytes - Utf8Len(s[0]));
      assert ([s[0]] + rest)[1..] == rest;
      [s[0]] + rest
  }

  // preview[:-n] for positive n.
  function DropLast(s: string, n: nat): string {
    if n >= |s| then "" else s[..|s| - n]
  }

  function Shrink(size: nat, preview: string, lim: Limits): Json
    decreases |preview|
  {
    if preview == "" then if Size(WithPreview(size, "")) <= lim.maxBytes then Obj(Head(size)) else Obj([Marked])
    else
      var candidate := Size(WithPreview(size, preview));
      if candidate <= lim.maxBytes then WithPreview(size, preview)
      else Shrink(size, DropLast(preview, candidate - lim.maxBytes), lim)
  }

  function PreviewBytes(size: nat, lim: Limits): nat {
    var base := Size(WithPreview(size, ""));
    var room := if lim.maxBytes > base then lim.maxBytes - base else 0;
    if room < PreviewLimit then room else PreviewLimit
  }

  function Snapshot(value: Json, lim: Limits): Json {
    var compacted := Compact(value, 0, lim);
    var size := Size(compacted);
    if size <= lim.maxBytes then
      if Truncates(value, 0, lim) && compacted.Obj? then Obj(SetDefault(compacted.fields, "_truncated", Bool(true))) else compacted
    else Shrink(size, DecodePrefix(Dumps(compacted), PreviewBytes(size, lim)), lim)
  }

  method CompactExternalJson(value: Json, lim: Limits) returns (r: Json)
    ensures r == Snapshot(value, lim)
  {
    var compactor := new Compactor(lim);
    var compacted := compactor.CompactValue(value, 0);
    var serialized := Dumps(compacted);
    var size := ByteLen(serialized);
    if size <= lim.maxBytes {
      if compactor.wasTruncated && compacted.Obj? {
        return Obj(SetDefault(compacted.fields, "_truncated", Bool(true)));
      }
      return compacted;
    }
    var preview := DecodePrefix(serialized, PreviewBytes(size, lim));
    while preview != ""
      invariant Shrink(size, preview, lim) == Snapshot(value, lim)
      decreases |preview|
    {
      var candidate := WithPreview(size, preview);
      if Size(candidate) <= lim.maxBytes {
        return candidate;
      }
      preview := DropLast(preview, Size(candidate) - lim.maxBytes);
    }
    if Size(WithPreview(size, "")) <= lim.maxBytes {
      return Obj(Head(size));
    }
    r := Obj([Marked]);
  }

  method PayloadContainsTruncationMarkers(value: Json) returns (found: bool)
    ensures found == Detects(value)
  {
    match value {
      case Obj(fields) =>
        for i := 0 to |fields|
          invariant forall k | 0 <= k < i :: fields[k] != Marked
        {
          if fields[i] == Marked {
            return true;
          }
        }
        for i := 0 to |fields|
          invariant forall k | 0 <= k < i :: !Detects(fields[k].value)
        {
          var inside := PayloadContainsTruncationMarkers(fields[i].value);
          if inside {
            return true;
          }
        }
        found := false;
      case Arr(items) =>
        for i := 0 to |items|
          invariant forall k | 0 <= k < i :: !Detects(items[k])
        {
          var inside := PayloadContainsTruncationMarkers(items[i]);
          if inside {
            return true;
          }
        }
        found := false;
      case _ => found := false;
    }
  }

  // ---- size ----

  lemma {:induction false} ShrinkFits(size: nat, preview: string, lim: Limits)
    ensures Size(Shrink(size, preview, lim)) <= if Size(Obj([Marked])) > lim.maxBytes then Size(Obj([Marked])) else lim.maxBytes
    ensures Detects(Shrink(size, preview, lim))
    decreases |preview|
  {
    if preview == "" {
      SizeWithField(Head(size), Field("_preview", Str("")));
      assert Head(size)[0] == Marked;
      assert [Marked][0] == Marked;
    } else {
      var candidate := Size(WithPreview(size, preview));
      if candidate <= lim.maxBytes {
        assert (Head(size) + [Field("_preview", Str(preview))])[0] == Marked;
      } else {
        ShrinkFits(size, DropLast(preview, candidate - lim.maxBytes), lim);
      }
    }
  }

  lemma OneFieldSize(f: Field)
    ensures Size(Obj([f])) == ByteLen(DumpField(f)) + 2
  {
    SizeWithField([], f);
    assert [] + [f] == [f];
    TrueBytes();
    assert Dumps(Obj([])) == "{}";
  }

  lemma FallbackSize()
    ensures Size(Obj([Marked])) == 20
  {
    MarkerField();
    OneFieldSize(Marked);
  }

  lemma LateMarkerSize(fields: seq<Field>)
    ensures Size(Obj(SetDefault(fields, "_truncated", Bool(true)))) <= Size(Obj(fields)) + 20
  {
    MarkerField();
    SizeWithField(fields, Marked);
  }

  // A snapshot never exceeds the byte limit by more than the late top-level marker.
  lemma SnapshotIsBounded(value: Json, lim: Limits)
    ensures Size(Snapshot(value, lim)) <= lim.maxBytes + 20
  {
    var compacted := Compact(value, 0, lim);
    if Size(compacted) > lim.maxBytes {
      FallbackSize();
      ShrinkFits(Size(compacted), DecodePrefix(Dumps(compacted), PreviewBytes(Size(compacted), lim)), lim);
    } else if compacted.Obj? {
      LateMarkerSize(compacted.fields);
    }
  }
}
