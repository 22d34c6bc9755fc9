/** A reader for compact JSON in UTF-8, and the proof that it gets back every payload from the bytes of its download. */
module RgbJsonReader {
  import opened Wrappers
  import opened Decimal
  import opened RgbCodec
  import opened RgbJson

  // ---------- UTF-8 ----------

  predicate Continuation(b: byte) {
    0x80 <= b < 0xC0
  }

  predicate Scalar(n: int) {
    0 <= n < 0xD800 || 0xE000 <= n < 0x11_0000
  }

  /** The first character of some UTF-8 bytes, and the bytes behind it. */
  function DecodeChar(b: seq<byte>): (r: Option<(char, seq<byte>)>)
    ensures r.Some? ==> |r.value.1| < |b|
  {
    var (n, length) :=
      if |b| >= 1 && b[0] < 0x80 then (b[0] as int, 1)
      else if |b| >= 2 && 0xC0 <= b[0] < 0xE0 && Continuation(b[1]) then ((b[0] as int - 0xC0) * 64 + (b[1] as int - 0x80), 2)
      else if |b| >= 3 && 0xE0 <= b[0] < 0xF0 && Continuation(b[1]) && Continuation(b[2]) then
        ((b[0] as int - 0xE0) * 4096 + (b[1] as int - 0x80) * 64 + (b[2] as int - 0x80), 3)
      else if |b| >= 4 && 0xF0 <= b[0] && Continuation(b[1]) && Continuation(b[2]) && Continuation(b[3]) then
        ((b[0] as int - 0xF0) * 262144 + (b[1] as int - 0x80) * 4096 + (b[2] as int - 0x80) * 64 + (b[3] as int - 0x80), 4)
      else (-1, 0);
    if length > 0 && Scalar(n) then Some((n as char, b[length..])) else None
  }

  function Decode(b: seq<byte>): Option<string>
    decreases |b|
  {
    if b == [] then Some("")
    else
      match DecodeChar(b)
      case None => None
      case Some(first) =>
        match Decode(first.1)
        case None => None
        case Some(rest) => Some([first.0] + rest)
  }

  lemma CharBack(c: char, rest: seq<byte>)
    ensures DecodeChar(Utf8Char(c) + rest) == Some((c, rest))
  {
    var n, b := c as int, Utf8Char(c) + rest;
    assert Scalar(n);
    if n < 0x80 {
      assert b[1..] == rest;
    } else if n < 0x800 {
      assert b[2..] == rest;
    } else if n < 0x10000 {
      assert n / 4096 * 4096 + n / 64 % 64 * 64 + n % 64 == n by {
        assert n / 4096 == n / 64 / 64;
      }
      assert b[3..] == rest;
    } else {
      assert n / 262144 * 262144 + n / 4096 % 64 * 4096 + n / 64 % 64 * 64 + n % 64 == n by {
        assert n / 4096 == n / 64 / 64 && n / 262144 == n / 64 / 64 / 64;
      }
      assert b[4..] == rest;
    }
  }

  lemma {:induction false} DecodeBack(s: string)
    ensures Decode(Utf8(s)) == Some(s)
  {
    hide Utf8Char, DecodeChar;
    if s != "" {
      CharBack(s[0], Utf8(s[1..]));
      DecodeBack(s[1..]);
      assert [s[0]] + s[1..] == s;
      assert Utf8(s) != [] by {
        hide Utf8;
        assert DecodeChar(Utf8Char(s[0]) + Utf8(s[1..])).Some?;
      }
    }
  }

  // ---------- Strings ----------

  function HexValue(c: char): Option<nat> {
    if '0' <= c <= '9' then Some(c as int - '0' as int)
    else if 'a' <= c <= 'f' then Some(c as int - 'a' as int + 10)
    else if 'A' <= c <= 'F' then Some(c as int - 'A' as int + 10)
    else None
  }

  function Hex4(s: string): Option<nat>
    requires |s| == 4
  {
    if HexValue(s[0]).None? || HexValue(s[1]).None? || HexValue(s[2]).None? || HexValue(s[3]).None? then None
    else
      Some(4096 * HexValue(s[0]).value + 256 * HexValue(s[1]).value + 16 * HexValue(s[2]).value + HexValue(s[3]).value)
  }

  /** One character of a quoted string, which may be escaped, and the text behind it. */
  function ReadChar(s: string): (r: Option<(char, string)>)
    ensures r.Some? ==> |r.value.1| < |s|
  {
    if s == "" then None
    else if s[0] < ' ' then None
    else if s[0] != '\\' then Some((s[0], s[1..]))
    else if |s| < 2 then None
    else if s[1] in {'"', '\\', '/'} then Some((s[1], s[2..]))
    else if s[1] == 'n' then Some((10 as char, s[2..]))
    else if s[1] == 'r' then Some((13 as char, s[2..]))
    else if s[1] == 't' then Some((9 as char, s[2..]))
    else if s[1] == 'b' then Some((8 as char, s[2..]))
    else if s[1] == 'f' then Some((12 as char, s[2..]))
    else if s[1] == 'u' && |s| >= 6 && Hex4(s[2..6]).Some? && Scalar(Hex4(s[2..6]).value) then
      Some((Hex4(s[2..6]).value as char, s[6..]))
    else None
  }

  /** The string up to its closing quote. */
  function ReadString(s: string): (r: Option<(string, string)>)
    ensures r.Some? ==> |r.value.1| < |s|
    decreases |s|
  {
    if s == "" then None
    else if s[0] == '"' then Some(("", s[1..]))
    else
      match ReadChar(s)
      case None => None
      case Some(first) =>
        match ReadString(first.1)
        case None => None
        case Some(more) => Some(([first.0] + more.0, more.1))
  }

  lemma HexBack(n: nat)
    requires n < 16
    ensures HexValue(HexDigit(n)) == Some(n)
  {
    assert "0123456789abcdef"[n] == if n < 10 then ('0' as int + n) as char else ('a' as int + n - 10) as char;
  }

  lemma EscapedBack(c: char, rest: string)
    ensures EscapeChar(c) + rest != "" && (EscapeChar(c) + rest)[0] != '"'
    ensures ReadChar(EscapeChar(c) + rest) == Some((c, rest))
  {
    var e := EscapeChar(c);
    var s := e + rest;
    assert s[..|e|] == e && s[|e|..] == rest;
    if c < ' ' && |e| == 6 {
      var n := c as int;
      HexBack(n / 16);
      HexBack(n % 16);
      HexBack(0);
      assert s[2..6] == ['0', '0', HexDigit(n / 16), HexDigit(n % 16)];
    }
  }

  /** The two-character escapes. */
  const SHORT: map<int, char> := map[34 := '"', 92 := '\\', 8 := 'b', 9 := 't', 10 := 'n', 12 := 'f', 13 := 'r']

  /** Which characters are escaped, and how: seven have a short escape, other controls a numeric one. */
  lemma EscapeMeaning(c: char)
    ensures c as int in SHORT ==> EscapeChar(c) == ['\\', SHORT[c as int]]
    ensures c as int !in SHORT && c as int < 32 ==>
      |EscapeChar(c)| == 6 && EscapeChar(c)[..2] == "\\u" && Hex4(EscapeChar(c)[2..]) == Some(c as int)
    ensures c as int !in SHORT && c as int >= 32 ==> EscapeChar(c) == [c]
  {
    if c as int !in SHORT && c as int < 32 {
      var n := c as int;
      HexBack(n / 16);
      HexBack(n % 16);
      HexBack(0);
      assert EscapeChar(c)[2..] == ['0', '0', HexDigit(n / 16), HexDigit(n % 16)];
    }
  }

  lemma {:induction false} StringBack(t: string, rest: string)
    ensures ReadString(Escape(t) + ("\"" + rest)) == Some((t, rest))
  {
    hide EscapeChar, ReadChar;
    if t == "" {
      assert Escape(t) + ("\"" + rest) == "\"" + rest;
      assert ("\"" + rest)[1..] == rest;
    } else {
      var behind := Escape(t[1..]) + ("\"" + rest);
      assert Escape(t) + ("\"" + rest) == EscapeChar(t[0]) + behind;
      EscapedBack(t[0], behind);
      StringBack(t[1..], rest);
      assert [t[0]] + t[1..] == t;
    }
  }

  // ---------- Numbers ----------

  function DigitsLength(s: string): (n: nat)
    ensures n <= |s| && AllDigits(s[..n]) && (n < |s| ==> !IsDigit(s[n]))
  {
    if s == "" || !IsDigit(s[0]) then 0 else 1 + DigitsLength(s[1..])
  }

  /** A sign, perhaps, and all the digits behind it. */
  function ReadNumber(s: string): (r: Option<(int, string)>)
    ensures r.Some? ==> |r.value.1| < |s|
  {
    var sign := if s != "" && s[0] == '-' then 1 else 0;
    var n := sign + DigitsLength(s[sign..]);
    match ParseInt(s[..n])
    case None => None
    case Some(value) => Some((value, s[n..]))
  }

  predicate EndsNumber(rest: string) {
    rest == "" || !IsDigit(rest[0])
  }

  lemma {:induction false} DigitsBack(digits: string, rest: string)
    requires AllDigits(digits) && EndsNumber(rest)
    ensures DigitsLength(digits + rest) == |digits|
  {
    if digits == "" {
      assert digits + rest == rest;
    } else {
      assert (digits + rest)[1..] == digits[1..] + rest;
      DigitsBack(digits[1..], rest);
    }
  }

  lemma NumberBack(n: int, rest: string)
    requires EndsNumber(rest)
    ensures DecInt(n) != "" && (DecInt(n)[0] == '-' || IsDigit(DecInt(n)[0]))
    ensures ReadNumber(DecInt(n) + rest) == Some((n, rest))
  {
    hide ParseInt;
    var s := DecInt(n) + rest;
    ParsePrinted(n);
    if n < 0 {
      DigitsBack(Dec(-n), rest);
      assert s[1..] == Dec(-n) + rest;
    } else {
      DigitsBack(Dec(n), rest);
      assert s[0..] == s;
    }
    assert s[..|DecInt(n)|] == DecInt(n) && s[|DecInt(n)|..] == rest;
  }

  // ---------- Values ----------

  /** The value at the front of a text, and the text behind it. */
  function Read(s: string): (r: Option<(Json, string)>)
    ensures r.Some? ==> |r.value.1| < |s|
    decreases |s|, 0
  {
    if s == "" then None
    else if "null" <= s then Some((Null, s[4..]))
    else if s[0] == '"' then
      match ReadString(s[1..])
      case None => None
      case Some(t) => Some((Str(t.0), t.1))
    else if s[0] == '[' then
      if |s| > 1 && s[1] == ']' then Some((Arr([]), s[2..]))
      else
        match ReadItems(s[1..])
        case None => None
        case Some(items) => Some((Arr(items.0), items.1))
    else if s[0] == '{' then
      if |s| > 1 && s[1] == '}' then Some((Obj([]), s[2..]))
      else
        match ReadFields(s[1..])
        case None => None
        case Some(fields) => Some((Obj(fields.0), fields.1))
    else
      match ReadNumber(s)
      case None => None
      case Some(n) => Some((Num(n.0), n.1))
  }

  /** Values separated by commas up to the closing bracket. */
  function ReadItems(s: string): (r: Option<(seq<Json>, string)>)
    ensures r.Some? ==> |r.value.1| < |s|
    decreases |s|, 1
  {
    match Read(s)
    case None => None
    case Some(first) =>
      if first.1 == "" then None
      else if first.1[0] == ']' then Some(([first.0], first.1[1..]))
      else if first.1[0] == ',' then
        match ReadItems(first.1[1..])
        case None => None
        case Some(more) => Some(([first.0] + more.0, more.1))
      else None
  }

  /** Named values separated by commas up to the closing brace. */
  function ReadFields(s: string): (r: Option<(seq<Field>, string)>)
    ensures r.Some? ==> |r.value.1| < |s|
    decreases |s|, 1
  {
    if s == "" || s[0] != '"' then None
    else
      match ReadString(s[1..])
      case None => None
      case Some(name) =>
        if name.1 == "" || name.1[0] != ':' then None
        else
          match Read(name.1[1..])
          case None => None
          case Some(value) =>
            var field := Field(name.0, value.0);
            if value.1 == "" then None
            else if value.1[0] == '}' then Some(([field], value.1[1..]))
            else if value.1[0] == ',' then
              match ReadFields(value.1[1..])
              case None => None
              case Some(more) => Some(([field] + more.0, more.1))
            else None
  }

  lemma NullRead(rest: string)
    ensures Read("null" + rest) == Some((Null, rest))
  {
    assert ("null" + rest)[4..] == rest;
  }

  lemma NumRead(n: int, rest: string)
    requires EndsNumber(rest)
    ensures Read(DecInt(n) + rest) == Some((Num(n), rest))
    ensures DecInt(n) != "" && DecInt(n)[0] !in {']', '}'}
  {
    hide ReadNumber, DecInt;
    NumberBack(n, rest);
    assert (DecInt(n) + rest)[0] == DecInt(n)[0];
  }

  lemma StrRead(t: string, rest: string)
    ensures Read(Quote(t) + rest) == Some((Str(t), rest))
  {
    hide ReadString, Escape;
    StringBack(t, rest);
    var s := Quote(t) + rest;
    assert s[0] == '"' && s[1..] == Escape(t) + ("\"" + rest);
  }

  lemma EmptyRead(rest: string)
    ensures Read("[]" + rest) == Some((Arr([]), rest))
    ensures Read("{}" + rest) == Some((Obj([]), rest))
  {
    var a, o := "[]" + rest, "{}" + rest;
    assert a[0] == '[' && a[1] == ']' && a[2..] == rest;
    assert o[0] == '{' && o[1] == '}' && o[2..] == rest;
  }

  lemma ArrRead(inner: string, items: seq<Json>, rest: string)
    requires inner != "" && inner[0] != ']' && ReadItems(inner + ("]" + rest)) == Some((items, rest))
    ensures Read("[" + inner + "]" + rest) == Some((Arr(items), rest))
  {
    hide ReadItems;
    var s := "[" + inner + "]" + rest;
    assert s[0] == '[' && s[1] == inner[0] && s[1..] == inner + ("]" + rest);
  }

  lemma ObjRead(inner: string, fields: seq<Field>, rest: string)
    requires inner != "" && inner[0] != '}' && ReadFields(inner + ("}" + rest)) == Some((fields, rest))
    ensures Read("{" + inner + "}" + rest) == Some((Obj(fields), rest))
  {
    hide ReadFields;
    var s := "{" + inner + "}" + rest;
    assert s[0] == '{' && s[1] == inner[0] && s[1..] == inner + ("}" + rest);
  }

  lemma {:induction false} ReadBack(j: Json, rest: string)
    requires EndsNumber(rest)
    ensures Read(Print(j) + rest) == Some((j, rest))
    ensures Print(j) != "" && Print(j)[0] !in {']', '}'}
    decreases j
  {
    hide Read, Quote, DecInt, PrintItems, PrintFields;
    match j
    case Null => NullRead(rest);
    case Num(n) => NumRead(n, rest);
    case Str(t) => StrRead(t, rest); QuoteFirst(t);
    case Arr(items) =>
      if items == [] {
        NothingPrinted();
        EmptyRead(rest);
      } else {
        ItemsBack(items, rest);
        ArrRead(PrintItems(items), items, rest);
      }
    case Obj(fields) =>
      if fields == [] {
        NothingPrinted();
        EmptyRead(rest);
      } else {
        FieldsBack(fields, rest);
        ObjRead(PrintFields(fields), fields, rest);
      }
  }

  lemma QuoteFirst(t: string)
    ensures Quote(t) != "" && Quote(t)[0] == '"'
  {
  }

  lemma NothingPrinted()
    ensures PrintItems([]) == "" && PrintFields([]) == ""
    ensures "[" + PrintItems([]) + "]" == "[]" && "{" + PrintFields([]) + "}" == "{}"
  {
  }

  lemma {:induction false} ItemsBack(items: seq<Json>, rest: string)
    requires items != []
    ensures ReadItems(PrintItems(items) + ("]" + rest)) == Some((items, rest))
    ensures PrintItems(items) != "" && PrintItems(items)[0] != ']'
    decreases items
  {
    hide Print, Read;
    var s := PrintItems(items) + ("]" + rest);
    if |items| == 1 {
      ReadBack(items[0], "]" + rest);
      assert ("]" + rest)[1..] == rest;
      assert [items[0]] == items;
    } else {
      var behind := PrintItems(items[1..]) + ("]" + rest);
      assert s == Print(items[0]) + ("," + behind);
      ReadBack(items[0], "," + behind);
      ItemsBack(items[1..], rest);
      assert ("," + behind)[1..] == behind;
      assert [items[0]] + items[1..] == items;
    }
  }

  /** A named value is read up to what follows it. */
  lemma FieldRead(f: Field, behind: string)
    requires behind != "" && EndsNumber(behind) && Read(Print(f.value) + behind) == Some((f.value, behind))
    ensures var s := Quote(f.name) + ":" + Print(f.value) + behind;
      && s != "" && s[0] == '"'
      && ReadString(s[1..]) == Some((f.name, ":" + (Print(f.value) + behind)))
      && (":" + (Print(f.value) + behind))[1..] == Print(f.value) + behind
  {
    hide Print, Read, ReadString, Escape;
    var s := Quote(f.name) + ":" + Print(f.value) + behind;
    assert s == "\"" + (Escape(f.name) + ("\"" + (":" + (Print(f.value) + behind))));
    assert s[1..] == Escape(f.name) + ("\"" + (":" + (Print(f.value) + behind)));
    StringBack(f.name, ":" + (Print(f.value) + behind));
  }

  lemma {:induction false} FieldsBack(fields: seq<Field>, rest: string)
    requires fields != []
    ensures ReadFields(PrintFields(fields) + ("}" + rest)) == Some((fields, rest))
    ensures PrintFields(fields) != "" && PrintFields(fields)[0] == '"'
    decreases fields
  {
    hide Print, Read, ReadString, Quote, PrintFields;
    var f := fields[0];
    FieldsText(fields, rest);
    if |fields| == 1 {
      ReadBack(f.value, "}" + rest);
      FieldRead(f, "}" + rest);
      assert ("}" + rest)[1..] == rest;
      assert [f] == fields;
    } else {
      var more := PrintFields(fields[1..]) + ("}" + rest);
      ReadBack(f.value, "," + more);
      FieldRead(f, "," + more);
      assert ("," + more)[1..] == more;
      FieldsBack(fields[1..], rest);
      assert [f] + fields[1..] == fields;
    }
  }

  lemma FieldsText(fields: seq<Field>, rest: string)
    requires fields != []
    ensures var f := fields[0];
      PrintFields(fields) + ("}" + rest) ==
      Quote(f.name) + ":" + Print(f.value)
      + if |fields| == 1 then "}" + rest else "," + (PrintFields(fields[1..]) + ("}" + rest))
    ensures PrintFields(fields) != "" && PrintFields(fields)[0] == '"'
  {
    hide Print, Quote, PrintFields;
    var f := fields[0];
    var first := Quote(f.name) + ":" + Print(f.value);
    QuoteFirst(f.name);
    assert first[0] == Quote(f.name)[0];
    PrintFieldsFirst(fields);
    if |fields| > 1 {
      Assoc(first, ",", PrintFields(fields[1..]), "}" + rest);
    }
  }

  lemma PrintFieldsFirst(fields: seq<Field>)
    requires fields != []
    ensures var first := Quote(fields[0].name) + ":" + Print(fields[0].value);
      PrintFields(fields) == if |fields| == 1 then first else first + "," + PrintFields(fields[1..])
  {
    hide Print, Quote;
  }

  lemma Assoc(a: string, b: string, c: string, d: string)
    ensures a + b + c + d == a + (b + (c + d))
  {
  }

  // ---------- Payloads ----------

  function Get(j: Json, name: string): Option<Json> {
    if j.Obj? then GetField(j.fields, name) else None
  }

  function GetField(fields: seq<Field>, name: string): Option<Json> {
    if fields == [] then None
    else if fields[0].name == name then Some(fields[0].value)
    else GetField(fields[1..], name)
  }

  function GetNum(j: Json, name: string): Option<int> {
    match Get(j, name)
    case Some(Num(n)) => Some(n)
    case _ => None
  }

  function GetStr(j: Json, name: string): Option<string> {
    match Get(j, name)
    case Some(Str(s)) => Some(s)
    case _ => None
  }

  /** {"rgb": [r, g, b]}, or an rgb of null. */
  function GetColor(j: Json): Option<Color> {
    match Get(j, "rgb")
    case Some(Arr(c)) =>
      if |c| == 3 && c[0].Num? && c[1].Num? && c[2].Num? then Some(Color(c[0].n, c[1].n, c[2].n)) else None
    case _ => None
  }

  function ReadOverride(j: Json): Option<Override> {
    match GetNum(j, "index")
    case None => None
    case Some(index) =>
      Some(Override(index, GetColor(j), GetNum(j, "brightness_percent"), GetNum(j, "on_ms"), GetNum(j, "off_ms")))
  }

  function ReadOverrides(js: seq<Json>): Option<seq<Override>> {
    if js == [] then Some([])
    else
      match (ReadOverride(js[0]), ReadOverrides(js[1..]))
      case (Some(first), Some(rest)) => Some([first] + rest)
      case _ => None
  }

  function ReadDefaults(j: Json): Option<Defaults> {
    match (GetNum(j, "brightness_percent"), GetNum(j, "on_ms"), GetNum(j, "off_ms"))
    case (Some(brightness), Some(onMs), Some(offMs)) => Some(Defaults(brightness, onMs, offMs))
    case _ => None
  }

  function ReadColorOf(j: Json, letter: string): Option<Color> {
    match Get(j, letter)
    case Some(entry) => GetColor(entry)
    case None => None
  }

  function ReadPalette(j: Json): Option<Palette> {
    match (ReadColorOf(j, "A"), ReadColorOf(j, "B"), ReadColorOf(j, "C"), ReadColorOf(j, "D"), ReadColorOf(j, "E"))
    case (Some(a), Some(b), Some(c), Some(d), Some(e)) => Some(map['A' := a, 'B' := b, 'C' := c, 'D' := d, 'E' := e])
    case _ => None
  }

  /** The payload that a JSON document of the wire schema describes. */
  function ReadPayload(j: Json): Option<Payload> {
    match (GetNum(j, "schema_version"), GetStr(j, "session_id"), GetStr(j, "sequence_id"), GetNum(j, "revision"),
           GetNum(j, "item_count"), GetStr(j, "sha256"), GetStr(j, "answers"))
    case (Some(version), Some(session), Some(sequence), Some(revision), Some(count), Some(sha256), Some(answers)) =>
      (match (Get(j, "defaults"), Get(j, "palette"), Get(j, "overrides"))
       case (Some(defaults), Some(palette), Some(Arr(overrides))) =>
         (match (ReadDefaults(defaults), ReadPalette(palette), ReadOverrides(overrides))
          case (Some(d), Some(p), Some(os)) =>
            Some(Payload(version, session, sequence, revision, count, sha256, answers, d, p, os))
          case _ => None)
       case _ => None)
    case _ => None
  }

  /** What a client makes of the bytes of a download. */
  function ReadBytes(b: seq<byte>): Option<Payload> {
    match Decode(b)
    case None => None
    case Some(text) =>
      match Read(text)
      case None => None
      case Some(document) => if document.1 == "" then ReadPayload(document.0) else None
  }

  lemma ColorBack(name: string, c: Color)
    ensures GetColor(Obj([Field("rgb", RgbJsonOf(c))])) == Some(c)
  {
  }

  lemma OverrideBack(o: Override)
    ensures ReadOverride(OverrideJson(o)) == Some(o)
  {
    var fields := OverrideJson(o).fields;
    Skip(fields, "brightness_percent", 2);
    Skip(fields, "on_ms", 3);
    Skip(fields, "off_ms", 4);
    Skip(fields, "rgb", 1);
  }

  /** A field found behind others of different names. */
  lemma {:induction false} Skip(fields: seq<Field>, name: string, k: nat)
    requires k < |fields| && fields[k].name == name && forall i :: 0 <= i < k ==> fields[i].name != name
    ensures GetField(fields, name) == Some(fields[k].value)
  {
    if k > 0 {
      Skip(fields[1..], name, k - 1);
    }
  }

  lemma {:induction false} OverridesBack(os: seq<Override>)
    ensures ReadOverrides(OverridesJson(os)) == Some(os)
  {
    hide ReadOverride, OverrideJson;
    if os != [] {
      OverrideBack(os[0]);
      OverridesBack(os[1..]);
      assert OverridesJson(os)[1..] == OverridesJson(os[1..]);
      assert [os[0]] + os[1..] == os;
    }
  }

  lemma DefaultsBack(d: Defaults)
    ensures ReadDefaults(DefaultsJson(d)) == Some(d)
  {
    var fields := DefaultsJson(d).fields;
    Skip(fields, "brightness_percent", 0);
    Skip(fields, "on_ms", 1);
    Skip(fields, "off_ms", 2);
  }

  lemma PaletteBack(p: Palette)
    requires p.Keys == LETTERS
    ensures ReadPalette(PaletteJson(p)) == Some(p)
  {
    hide GetColor;
    var fields := PaletteJson(p).fields;
    Skip(fields, "A", 0);
    Skip(fields, "B", 1);
    Skip(fields, "C", 2);
    Skip(fields, "D", 3);
    Skip(fields, "E", 4);
    ColorBack("A", p['A']);
    ColorBack("B", p['B']);
    ColorBack("C", p['C']);
    ColorBack("D", p['D']);
    ColorBack("E", p['E']);
    assert p == map['A' := p['A'], 'B' := p['B'], 'C' := p['C'], 'D' := p['D'], 'E' := p['E']];
  }

  lemma PayloadBack(p: Payload)
    requires ValidPayload(p)
    ensures ReadPayload(PayloadJson(p)) == Some(p)
  {
    hide ReadDefaults, ReadPalette, ReadOverrides, DefaultsJson, PaletteJson, OverridesJson, GetField;
    var fields := PayloadJson(p).fields;
    Skip(fields, "schema_version", 0);
    Skip(fields, "session_id", 1);
    Skip(fields, "sequence_id", 2);
    Skip(fields, "revision", 3);
    Skip(fields, "item_count", 4);
    Skip(fields, "sha256", 5);
    Skip(fields, "answers", 6);
    Skip(fields, "defaults", 7);
    Skip(fields, "palette", 8);
    Skip(fields, "overrides", 9);
    DefaultsBack(p.defaults);
    PaletteBack(p.palette);
    OverridesBack(p.overrides);
  }

  /** Reading the bytes of a download gives back the payload, whatever its session id has to have escaped or encoded. */
  lemma CompactJsonRoundTrip(p: Payload)
    requires ValidPayload(p)
    ensures ReadBytes(CompactJsonBytes(p)) == Some(p)
  {
    hide Decode, Read, ReadPayload, Utf8, Print, PayloadJson;
    DecodeBack(Print(PayloadJson(p)));
    ReadBack(PayloadJson(p), "");
    assert Print(PayloadJson(p)) + "" == Print(PayloadJson(p));
    PayloadBack(p);
  }
}
