/** Compact JSON of an RGB payload in UTF-8, and the bound that keeps it under the firmware limit. */
module RgbJson {
  import opened Wrappers
  import opened Decimal
  import opened RgbCodec

  /** The default (and largest allowed) RGB_SEQUENCE_MAX_JSON_BYTES. */
  const MAX_JSON_BYTES := 262144

  const MAX_INT32 := 0x7FFF_FFFF

  datatype Json =
    | Null
    | Num(n: int)
    | Str(s: string)
    | Arr(items: seq<Json>)
    | Obj(fields: seq<Field>)

  datatype Field = Field(name: string, value: Json)

  // ---------- json.dumps(..., ensure_ascii=False, separators=(",", ":")) ----------

  function HexDigit(n: nat): char
    requires n < 16
  {
    "0123456789abcdef"[n]
  }

  function EscapeChar(c: char): string {
    if c == '"' then "\\\""
    else if c == '\\' then "\\\\"
    else if c == '\n' then "\\n"
    else if c == '\r' then "\\r"
    else if c == '\t' then "\\t"
    else if c == 8 as char then "\\b"
    else if c == 12 as char then "\\f"
    else if c < ' ' then "\\u00" + [HexDigit(c as int / 16), HexDigit(c as int % 16)]
    else [c]
  }

  function Escape(s: string): string {
    if s == "" then "" else EscapeChar(s[0]) + Escape(s[1..])
  }

  function Quote(s: string): string {
    "\"" + Escape(s) + "\""
  }

  function Print(j: Json): string
    decreases j
  {
    match j
    case Null => "null"
    case Num(n) => DecInt(n)
    case Str(s) => Quote(s)
    case Arr(items) => "[" + PrintItems(items) + "]"
    case Obj(fields) => "{" + PrintFields(fields) + "}"
  }

  function PrintItems(items: seq<Json>): string
    decreases items
  {
    if items == [] then ""
    else if |items| == 1 then Print(items[0])
    else Print(items[0]) + "," + PrintItems(items[1..])
  }

  function PrintFields(fields: seq<Field>): string
    decreases fields
  {
    if fields == [] then ""
    else
      var first := Quote(fields[0].name) + ":" + Print(fields[0].value);
      if |fields| == 1 then first else first + "," + PrintFields(fields[1..])
  }

  // ---------- UTF-8 ----------

  function Utf8Char(c: char): seq<byte> {
    var n := c as int;
    if n < 0x80 then [n]
    else if n < 0x800 then [0xC0 + n / 64, 0x80 + n % 64]
    else if n < 0x10000 then [0xE0 + n / 4096, 0x80 + n / 64 % 64, 0x80 + n % 64]
    else [0xF0 + n / 262144, 0x80 + n / 4096 % 64, 0x80 + n / 64 % 64, 0x80 + n % 64]
  }

  function Utf8(s: string): seq<byte> {
    if s == "" then [] else Utf8Char(s[0]) + Utf8(s[1..])
  }

  lemma {:induction false} Utf8Append(a: string, b: string)
    ensures Utf8(a + b) == Utf8(a) + Utf8(b)
  {
    hide Utf8Char;
    if a == "" {
      assert a + b == b;
    } else {
      Utf8Append(a[1..], b);
      assert (a + b)[1..] == a[1..] + b;
    }
  }

  lemma {:induction false} Utf8Ascii(s: string)
    requires forall i :: 0 <= i < |s| ==> s[i] as int < 0x80
    ensures |Utf8(s)| == |s|
  {
    if s != "" {
      Utf8Ascii(s[1..]);
    }
  }

  // ---------- Byte sizes ----------

  function QuotedSize(s: string): nat {
    2 + |Utf8(Escape(s))|
  }

  /** The number of UTF-8 bytes of a printed value, computed without printing it. */
  function Size(j: Json): nat
    decreases j
  {
    match j
    case Null => 4
    case Num(n) => |DecInt(n)|
    case Str(s) => QuotedSize(s)
    case Arr(items) => 2 + ItemsSize(items)
    case Obj(fields) => 2 + FieldsSize(fields)
  }

  function ItemsSize(items: seq<Json>): nat
    decreases items
  {
    if items == [] then 0
    else Size(items[0]) + (if |items| == 1 then 0 else 1) + ItemsSize(items[1..])
  }

  function FieldsSize(fields: seq<Field>): nat
    decreases fields
  {
    if fields == [] then 0
    else
      QuotedSize(fields[0].name) + 1 + Size(fields[0].value)
      + (if |fields| == 1 then 0 else 1) + FieldsSize(fields[1..])
  }

  lemma Utf8Append3(a: string, b: string, c: string)
    ensures |Utf8(a + b + c)| == |Utf8(a)| + |Utf8(b)| + |Utf8(c)|
  {
    Utf8Append(a + b, c);
    Utf8Append(a, b);
  }

  lemma QuoteSize(s: string)
    ensures |Utf8(Quote(s))| == QuotedSize(s)
  {
    Utf8Append3("\"", Escape(s), "\"");
  }

  lemma {:induction false} PrintedSize(j: Json)
    ensures |Utf8(Print(j))| == Size(j)
    decreases j
  {
    match j
    case Null => Utf8Ascii("null");
    case Num(n) => Utf8Ascii(DecInt(n));
    case Str(s) => QuoteSize(s);
    case Arr(items) =>
      PrintedItemsSize(items);
      Utf8Append3("[", PrintItems(items), "]");
    case Obj(fields) =>
      PrintedFieldsSize(fields);
      Utf8Append3("{", PrintFields(fields), "}");
  }

  lemma {:induction false} PrintedItemsSize(items: seq<Json>)
    ensures |Utf8(PrintItems(items))| == ItemsSize(items)
    decreases items
  {
    if items != [] {
      PrintedSize(items[0]);
      PrintedItemsSize(items[1..]);
      Utf8Append3(Print(items[0]), ",", PrintItems(items[1..]));
    }
  }

  lemma {:induction false} PrintedFieldsSize(fields: seq<Field>)
    ensures |Utf8(PrintFields(fields))| == FieldsSize(fields)
    decreases fields
  {
    if fields != [] {
      QuoteSize(fields[0].name);
      PrintedSize(fields[0].value);
      PrintedFieldsSize(fields[1..]);
      Utf8Append3(Quote(fields[0].name), ":", Print(fields[0].value));
      Utf8Append3(Quote(fields[0].name) + ":" + Print(fields[0].value), ",", PrintFields(fields[1..]));
    }
  }

  /** Escaping and encoding expand a character to at most six bytes. */
  lemma {:induction false} EscapedSize(s: string)
    ensures |Utf8(Escape(s))| <= 6 * |s|
  {
    hide EscapeChar, Utf8;
    NothingEncoded();
    if s != "" {
      EscapedSize(s[1..]);
      Utf8Append(EscapeChar(s[0]), Escape(s[1..]));
      EscapedCharSize(s[0]);
    }
  }

  lemma NothingEncoded()
    ensures Utf8("") == []
  {
  }

  lemma EscapedCharSize(c: char)
    ensures |Utf8(EscapeChar(c))| <= 6
  {
    var e := EscapeChar(c);
    if |e| == 1 {
      assert Utf8(e) == Utf8Char(e[0]) + Utf8(e[1..]);
    } else {
      Utf8Ascii(e);
    }
  }

  predicate Plain(s: string) {
    forall i :: 0 <= i < |s| ==> ' ' <= s[i] <= '~' && s[i] != '"' && s[i] != '\\'
  }

  lemma {:induction false} PlainSize(s: string)
    requires Plain(s)
    ensures QuotedSize(s) == |s| + 2
  {
    if s != "" {
      PlainSize(s[1..]);
      assert Escape(s) == [s[0]] + Escape(s[1..]);
      Utf8Append([s[0]], Escape(s[1..]));
      Utf8Ascii([s[0]]);
    }
  }

  // ---------- The payload document ----------

  function NumOrNull(o: Option<int>): Json {
    match o
    case Some(n) => Num(n)
    case None => Null
  }

  function RgbJsonOf(c: Color): Json {
    Arr([Num(c.r), Num(c.g), Num(c.b)])
  }

  function OverrideJson(o: Override): Json {
    Obj([Field("index", Num(o.index)),
         Field("rgb", match o.rgb case Some(c) => RgbJsonOf(c) case None => Null),
         Field("brightness_percent", NumOrNull(o.brightness)),
         Field("on_ms", NumOrNull(o.onMs)),
         Field("off_ms", NumOrNull(o.offMs))])
  }

  function OverridesJson(os: seq<Override>): (js: seq<Json>)
    ensures |js| == |os| && forall i :: 0 <= i < |os| ==> js[i] == OverrideJson(os[i])
  {
    if os == [] then [] else [OverrideJson(os[0])] + OverridesJson(os[1..])
  }

  function DefaultsJson(d: Defaults): Json {
    Obj([Field("brightness_percent", Num(d.brightness)), Field("on_ms", Num(d.onMs)), Field("off_ms", Num(d.offMs))])
  }

  function PaletteEntry(p: Palette, letter: char): Field
    requires letter in p
  {
    Field([letter], Obj([Field("rgb", RgbJsonOf(p[letter]))]))
  }

  function PaletteJson(p: Palette): Json
    requires p.Keys == LETTERS
  {
    Obj([PaletteEntry(p, 'A'), PaletteEntry(p, 'B'), PaletteEntry(p, 'C'), PaletteEntry(p, 'D'), PaletteEntry(p, 'E')])
  }

  function PayloadJson(p: Payload): Json
    requires ValidPayload(p)
  {
    Obj([Field("schema_version", Num(p.schemaVersion)),
         Field("session_id", Str(p.sessionId)),
         Field("sequence_id", Str(p.sequenceId)),
         Field("revision", Num(p.revision)),
         Field("item_count", Num(p.itemCount)),
         Field("sha256", Str(p.sha256)),
         Field("answers", Str(p.answers)),
         Field("defaults", DefaultsJson(p.defaults)),
         Field("palette", PaletteJson(p.palette)),
         Field("overrides", Arr(OverridesJson(p.overrides)))])
  }

  function CompactJsonBytes(p: Payload): seq<byte>
    requires ValidPayload(p)
  {
    Utf8(Print(PayloadJson(p)))
  }

  // ---------- The bound ----------

  lemma NumSize(n: int, k: nat)
    requires 1 <= k && 0 <= n < Pow10(k)
    ensures 1 <= Size(Num(n)) <= k
  {
    DecLength(n, k);
  }

  lemma SmallNumber(n: int)
    ensures 0 <= n <= 999 ==> 1 <= Size(Num(n)) <= 3
    ensures 0 <= n <= 60000 ==> 1 <= Size(Num(n)) <= 5
  {
    assert Pow10(3) == 1000 && Pow10(5) == 100000 by {
      assert Pow10(2) == 10 * Pow10(1) && Pow10(4) == 10 * Pow10(3);
    }
    if 0 <= n <= 999 {
      NumSize(n, 3);
    }
    if 0 <= n <= 60000 {
      NumSize(n, 5);
    }
  }

  /** A field whose name needs no escaping and is short. */
  predicate SmallField(f: Field, valueBound: nat) {
    Plain(f.name) && |f.name| <= 18 && Size(f.value) <= valueBound
  }

  lemma {:induction false} SmallFields(fs: seq<Field>, valueBound: nat)
    requires forall i :: 0 <= i < |fs| ==> SmallField(fs[i], valueBound)
    ensures FieldsSize(fs) <= (22 + valueBound) * |fs|
  {
    hide Size, Escape, Utf8;
    if fs != [] {
      PlainSize(fs[0].name);
      SmallFields(fs[1..], valueBound);
      assert (22 + valueBound) * |fs| == (22 + valueBound) + (22 + valueBound) * |fs[1..]|;
    }
  }

  lemma {:induction false} SmallItems(js: seq<Json>, bound: nat)
    requires forall i :: 0 <= i < |js| ==> Size(js[i]) <= bound
    ensures ItemsSize(js) <= (1 + bound) * |js|
  {
    hide Size;
    if js != [] {
      SmallItems(js[1..], bound);
      assert (1 + bound) * |js| == (1 + bound) + (1 + bound) * |js[1..]|;
    }
  }

  lemma {:induction false} FieldsAppend(fs: seq<Field>, last: Field)
    ensures FieldsSize(fs + [last]) <= FieldsSize(fs) + 1 + FieldsSize([last])
  {
    if fs == [] {
      assert fs + [last] == [last];
    } else {
      FieldsAppend(fs[1..], last);
      assert (fs + [last])[1..] == fs[1..] + [last];
    }
  }

  lemma ColorSize(c: Color)
    requires ValidColor(c)
    ensures Size(RgbJsonOf(c)) <= 14
  {
    hide Escape, Utf8;
    SmallNumber(c.r);
    SmallNumber(c.g);
    SmallNumber(c.b);
    SmallItems([Num(c.r), Num(c.g), Num(c.b)], 3);
  }

  lemma OptionalNumber(o: Option<int>)
    requires o.Some? ==> 0 <= o.value <= 60000
    ensures Size(NumOrNull(o)) <= 5
  {
    if o.Some? {
      SmallNumber(o.value);
    }
  }

  lemma OverrideSize(o: Override)
    requires ValidOverride(o)
    ensures Size(OverrideJson(o)) <= 182
  {
    hide Escape, Utf8;
    SmallNumber(o.index);
    if o.rgb.Some? {
      ColorSize(o.rgb.value);
    }
    OptionalNumber(o.brightness);
    OptionalNumber(o.onMs);
    OptionalNumber(o.offMs);
    SmallFields(OverrideJson(o).fields, 14);
  }

  lemma OverridesSize(os: seq<Override>)
    requires forall i :: 0 <= i < |os| ==> ValidOverride(os[i])
    ensures ItemsSize(OverridesJson(os)) <= 183 * |os|
  {
    forall i | 0 <= i < |os|
      ensures Size(OverridesJson(os)[i]) <= 182
    {
      OverrideSize(os[i]);
    }
    SmallItems(OverridesJson(os), 182);
  }

  lemma DefaultsSize(d: Defaults)
    requires ValidDefaults(d)
    ensures Size(DefaultsJson(d)) <= 83
  {
    hide Escape, Utf8;
    SmallNumber(d.brightness);
    SmallNumber(d.onMs);
    SmallNumber(d.offMs);
    SmallFields(DefaultsJson(d).fields, 5);
  }

  lemma PaletteSize(p: Palette)
    requires ValidPalette(p)
    ensures Size(PaletteJson(p)) <= 302
  {
    hide Escape, Utf8;
    forall letter | letter in LETTERS
      ensures SmallField(PaletteEntry(p, letter), 38)
    {
      ColorSize(p[letter]);
      SmallFields(PaletteEntry(p, letter).value.fields, 14);
    }
    SmallFields(PaletteJson(p).fields, 38);
  }

  /** Distinct indices below item_count leave room for at most item_count overrides. */
  lemma OverrideCount(os: seq<Override>, n: nat)
    requires ValidOverrides(os, n)
    ensures |os| <= n
  {
    SubrangeSize(IndexSet(os), n);
  }

  ghost function IndexSet(os: seq<Override>): (s: set<int>)
    requires DistinctIndices(os)
    ensures |s| == |os|
    ensures forall k :: k in s <==> exists i :: 0 <= i < |os| && os[i].index == k
  {
    if os == [] then {} else
      var rest := IndexSet(os[1..]);
      assert forall i :: 0 < i < |os| ==> os[i] == os[1..][i - 1];
      assert os[0].index !in rest;
      rest + {os[0].index}
  }

  lemma {:induction false} SubrangeSize(s: set<int>, n: nat)
    requires forall k :: k in s ==> 0 <= k < n
    ensures |s| <= n
  {
    if n == 0 {
      assert forall k :: k !in s;
    } else {
      SubrangeSize(s - {n - 1}, n - 1);
    }
  }

  lemma StringSizes(p: Payload)
    requires ValidPayload(p)
    ensures Size(Str(p.sessionId)) <= 770 && Size(Str(p.sequenceId)) <= 66
    ensures Size(Str(p.sha256)) == 66 && Size(Str(p.answers)) <= 1002
  {
    EscapedSize(p.sessionId);
    PlainSize(p.sequenceId);
    PlainSize(p.sha256);
    PlainSize(p.answers);
  }

  lemma RevisionSize(n: int)
    requires 0 <= n <= MAX_INT32
    ensures Size(Num(n)) <= 10
  {
    assert Pow10(10) == 10000000000 by {
      assert Pow10(2) == 100 && Pow10(4) == 10000 && Pow10(6) == 1000000 && Pow10(8) == 100000000;
    }
    NumSize(n, 10);
  }

  /** Every field of the payload but its overrides is small. */
  lemma ScalarFields(p: Payload)
    requires ValidPayload(p) && p.revision <= MAX_INT32
    ensures forall i :: 0 <= i < 9 ==> SmallField(PayloadJson(p).fields[i], 1002)
  {
    hide Escape, Utf8, Size, DefaultsJson, PaletteJson;
    SmallNumber(p.schemaVersion);
    SmallNumber(p.itemCount);
    RevisionSize(p.revision);
    StringSizes(p);
    DefaultsSize(p.defaults);
    PaletteSize(p.palette);
  }

  /** The compact JSON of any schema-valid payload fits the firmware's download buffer. */
  lemma CompactJsonFits(p: Payload)
    requires ValidPayload(p) && p.revision <= MAX_INT32
    ensures |CompactJsonBytes(p)| < MAX_JSON_BYTES
  {
    hide Escape, Utf8;
    PrintedSize(PayloadJson(p));
    var fs := PayloadJson(p).fields;
    ScalarFields(p);
    SmallFields(fs[..9], 1002);
    OverrideCount(p.overrides, p.itemCount);
    OverridesSize(p.overrides);
    SmallFields([fs[9]], 183002);
    FieldsAppend(fs[..9], fs[9]);
    assert fs == fs[..9] + [fs[9]];
  }
}
