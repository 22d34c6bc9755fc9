/** RGB payloads: the strict schema, override resolution and the 13-byte canonical packing. */
module RgbCodec {
  import opened Wrappers
  import opened Decimal

  type byte = x: int | 0 <= x < 256

  type Digest = s: string | IsHex64(s) witness Zeros(64)

  /** SHA-256 in lowercase hexadecimal: any function from bytes to digests. */
  type Sha256 = seq<byte> -> Digest

  const LETTERS: set<char> := {'A', 'B', 'C', 'D', 'E'}

  datatype Color = Color(r: int, g: int, b: int)

  datatype Defaults = Defaults(brightness: int, onMs: int, offMs: int)

  datatype Override = Override(
    index: int, rgb: Option<Color>, brightness: Option<int>, onMs: Option<int>, offMs: Option<int>)

  type Palette = map<char, Color>

  datatype Payload = Payload(
    schemaVersion: int, sessionId: string, sequenceId: string, revision: int, itemCount: int, sha256: string,
    answers: string, defaults: Defaults, palette: Palette, overrides: seq<Override>)

  // ---------- Schema ----------

  predicate IsHex(c: char) {
    '0' <= c <= '9' || 'a' <= c <= 'f'
  }

  predicate IsHex64(s: string) {
    |s| == 64 && forall i :: 0 <= i < |s| ==> IsHex(s[i])
  }

  predicate IsIdChar(c: char) {
    'A' <= c <= 'Z' || 'a' <= c <= 'z' || '0' <= c <= '9' || c == '_' || c == '-'
  }

  predicate ValidSequenceId(s: string) {
    1 <= |s| <= 64 && forall i :: 0 <= i < |s| ==> IsIdChar(s[i])
  }

  predicate ValidAnswers(s: string) {
    1 <= |s| <= 1000 && forall i :: 0 <= i < |s| ==> s[i] in LETTERS
  }

  predicate ValidColor(c: Color) {
    0 <= c.r <= 255 && 0 <= c.g <= 255 && 0 <= c.b <= 255
  }

  predicate ValidBrightness(n: int) { 0 <= n <= 100 }

  predicate ValidOn(n: int) { 100 <= n <= 60000 }

  predicate ValidOff(n: int) { 0 <= n <= 60000 }

  predicate ValidDefaults(d: Defaults) {
    ValidBrightness(d.brightness) && ValidOn(d.onMs) && ValidOff(d.offMs)
  }

  predicate ValidPalette(p: Palette) {
    p.Keys == LETTERS && forall c :: c in p ==> ValidColor(p[c])
  }

  predicate ValidOverride(o: Override) {
    && 0 <= o.index <= 999
    && (o.rgb.Some? ==> ValidColor(o.rgb.value))
    && (o.brightness.Some? ==> ValidBrightness(o.brightness.value))
    && (o.onMs.Some? ==> ValidOn(o.onMs.value))
    && (o.offMs.Some? ==> ValidOff(o.offMs.value))
  }

  predicate DistinctIndices(overrides: seq<Override>) {
    forall i, j :: 0 <= i < j < |overrides| ==> overrides[i].index != overrides[j].index
  }

  predicate ValidOverrides(overrides: seq<Override>, itemCount: int) {
    && (forall i :: 0 <= i < |overrides| ==> ValidOverride(overrides[i]) && overrides[i].index < itemCount)
    && DistinctIndices(overrides)
  }

  predicate ValidPayload(p: Payload) {
    && p.schemaVersion == 1
    && 1 <= |p.sessionId| <= 128
    && ValidSequenceId(p.sequenceId)
    && 1 <= p.revision
    && 1 <= p.itemCount <= 1000
    && IsHex64(p.sha256)
    && ValidAnswers(p.answers)
    && ValidDefaults(p.defaults)
    && ValidPalette(p.palette)
    && ValidOverrides(p.overrides, p.itemCount)
    && p.itemCount == |p.answers|
  }

  predicate Between(low: int, n: int, high: int) {
    low <= n <= high
  }

  /** Every character's code point is in one of the ranges. */
  predicate MadeOf(s: string, ranges: set<(int, int)>) {
    forall i :: 0 <= i < |s| ==> exists r :: r in ranges && r.0 <= s[i] as int <= r.1
  }

  /** Which texts are ids, answers and digests: their lengths and their alphabets, by code points. */
  lemma TextMeaning(s: string)
    ensures ValidSequenceId(s) <==> Between(1, |s|, 64) && MadeOf(s, {(48, 57), (65, 90), (97, 122), (45, 45), (95, 95)})
    ensures ValidAnswers(s) <==> Between(1, |s|, 1000) && MadeOf(s, {(65, 69)})
    ensures IsHex64(s) <==> |s| == 64 && MadeOf(s, {(48, 57), (97, 102)})
  {
    forall c: char
      ensures IsIdChar(c) <==> exists r :: r in {(48, 57), (65, 90), (97, 122), (45, 45), (95, 95)} && r.0 <= c as int <= r.1
      ensures c in LETTERS <==> exists r :: r in {(65, 69)} && r.0 <= c as int <= r.1
      ensures IsHex(c) <==> exists r :: r in {(48, 57), (97, 102)} && r.0 <= c as int <= r.1
    {
      CharMeaning(c);
    }
  }

  lemma CharMeaning(c: char)
    ensures IsIdChar(c) <==> exists r :: r in {(48, 57), (65, 90), (97, 122), (45, 45), (95, 95)} && r.0 <= c as int <= r.1
    ensures c in LETTERS <==> exists r :: r in {(65, 69)} && r.0 <= c as int <= r.1
    ensures IsHex(c) <==> exists r :: r in {(48, 57), (97, 102)} && r.0 <= c as int <= r.1
  {
    var id: set<(int, int)> := {(48, 57), (65, 90), (97, 122), (45, 45), (95, 95)};
    assert (48, 57) in id && (65, 90) in id && (97, 122) in id && (45, 45) in id && (95, 95) in id;
    var hex: set<(int, int)> := {(48, 57), (97, 102)};
    assert (48, 57) in hex && (97, 102) in hex;
    var letters: set<(int, int)> := {(65, 69)};
    assert (65, 69) in letters;
  }

  /** Which numbers, palettes and overrides a payload may have. */
  lemma RangeMeaning(d: Defaults, p: Palette, o: Override)
    ensures ValidDefaults(d) <==> Between(0, d.brightness, 100) && Between(100, d.onMs, 60000) && Between(0, d.offMs, 60000)
    ensures ValidPalette(p) <==>
      && p.Keys == {'A', 'B', 'C', 'D', 'E'}
      && forall c :: c in p ==> Between(0, p[c].r, 255) && Between(0, p[c].g, 255) && Between(0, p[c].b, 255)
    ensures ValidOverride(o) <==>
      && Between(0, o.index, 999)
      && (match o.rgb case Some(c) => Between(0, c.r, 255) && Between(0, c.g, 255) && Between(0, c.b, 255) case None => true)
      && (match o.brightness case Some(n) => Between(0, n, 100) case None => true)
      && (match o.onMs case Some(n) => Between(100, n, 60000) case None => true)
      && (match o.offMs case Some(n) => Between(0, n, 60000) case None => true)
  {
  }

  /** A payload is valid exactly if all its parts are, the count is right and every override names another item. */
  lemma PayloadMeaning(p: Payload)
    ensures ValidPayload(p) <==>
      && p.schemaVersion == 1 && p.revision >= 1
      && Between(1, |p.sessionId|, 128) && ValidSequenceId(p.sequenceId) && IsHex64(p.sha256)
      && ValidAnswers(p.answers) && p.itemCount == |p.answers|
      && ValidDefaults(p.defaults) && ValidPalette(p.palette)
      && (forall o :: o in p.overrides ==> ValidOverride(o) && o.index < |p.answers|)
      && forall i, j :: 0 <= i < |p.overrides| && 0 <= j < |p.overrides| && p.overrides[i].index == p.overrides[j].index ==> i == j
  {
    hide ValidSequenceId, ValidDefaults, ValidPalette, ValidOverride, IsHex64;
    if forall o :: o in p.overrides ==> ValidOverride(o) && o.index < |p.answers| {
      assert forall i :: 0 <= i < |p.overrides| ==> p.overrides[i] in p.overrides;
    }
  }

  // ---------- Resolution ----------

  datatype Item = Item(answer: char, r: int, g: int, b: int, brightness: int, onMs: int, offMs: int)

  predicate ValidItem(i: Item) {
    && i.answer in LETTERS && ValidColor(Color(i.r, i.g, i.b))
    && ValidBrightness(i.brightness) && ValidOn(i.onMs) && ValidOff(i.offMs)
  }

  function GetOr<T>(o: Option<T>, default: T): T {
    match o
    case Some(v) => v
    case None => default
  }

  function BaseItem(answer: char, d: Defaults, palette: Palette): Item
    requires answer in palette
  {
    var c := palette[answer];
    Item(answer, c.r, c.g, c.b, d.brightness, d.onMs, d.offMs)
  }

  function Overridden(base: Item, o: Override): Item {
    var c := GetOr(o.rgb, Color(base.r, base.g, base.b));
    Item(base.answer, c.r, c.g, c.b,
         GetOr(o.brightness, base.brightness), GetOr(o.onMs, base.onMs), GetOr(o.offMs, base.offMs))
  }

  /** The override that names an index, if any. */
  function OverrideFor(overrides: seq<Override>, index: int): Option<Override> {
    if overrides == [] then None
    else if overrides[0].index == index then Some(overrides[0])
    else OverrideFor(overrides[1..], index)
  }

  function ResolvedWith(p: Payload, overrides: seq<Override>, i: nat): Item
    requires ValidPayload(p) && i < |p.answers|
  {
    var base := BaseItem(p.answers[i], p.defaults, p.palette);
    match OverrideFor(overrides, i)
    case Some(o) => Overridden(base, o)
    case None => base
  }

  lemma ResolvedItemsValid(p: Payload)
    requires ValidPayload(p)
    ensures forall i: nat :: i < |p.answers| ==> ValidItem(ResolvedWith(p, p.overrides, i))
  {
    forall i: nat | i < |p.answers|
      ensures ValidItem(ResolvedWith(p, p.overrides, i))
    {
      OverrideForMember(p.overrides, i);
    }
  }

  /** The pointwise meaning of a payload: palette and defaults, then the one override of that index. */
  function Resolved(p: Payload): (items: seq<Item>)
    requires ValidPayload(p)
    ensures |items| == |p.answers|
    ensures forall i :: 0 <= i < |items| ==> items[i] == ResolvedWith(p, p.overrides, i) && ValidItem(items[i])
  {
    ResolvedItemsValid(p);
    seq(|p.answers|, i requires 0 <= i < |p.answers| => ResolvedWith(p, p.overrides, i))
  }

  lemma {:induction false} OverrideForAppend(overrides: seq<Override>, o: Override, index: int)
    ensures OverrideFor(overrides + [o], index) ==
      if OverrideFor(overrides, index).Some? then OverrideFor(overrides, index)
      else if o.index == index then Some(o) else None
  {
    if overrides == [] {
      assert overrides + [o] == [o];
    } else {
      OverrideForAppend(overrides[1..], o, index);
      assert (overrides + [o])[1..] == overrides[1..] + [o];
    }
  }

  lemma {:induction false} OverrideForMember(overrides: seq<Override>, index: int)
    ensures OverrideFor(overrides, index).Some? <==> exists o :: o in overrides && o.index == index
    ensures OverrideFor(overrides, index).Some? ==>
      OverrideFor(overrides, index).value in overrides && OverrideFor(overrides, index).value.index == index
  {
    if overrides != [] {
      OverrideForMember(overrides[1..], index);
      assert overrides == [overrides[0]] + overrides[1..];
    }
  }

  /** The in-place override loop computes the pointwise meaning. */
  method ResolvedItems(p: Payload) returns (items: seq<Item>)
    requires ValidPayload(p)
    ensures items == Resolved(p)
  {
    items := seq(|p.answers|, i requires 0 <= i < |p.answers| => BaseItem(p.answers[i], p.defaults, p.palette));
    for k := 0 to |p.overrides|
      invariant |items| == |p.answers|
      invariant forall i :: 0 <= i < |items| ==> items[i] == ResolvedWith(p, p.overrides[..k], i)
    {
      var o := p.overrides[k];
      OverrideForMember(p.overrides[..k], o.index);
      var current := items[o.index];
      var color := GetOr(o.rgb, Color(current.r, current.g, current.b));
      items := items[o.index := Item(current.answer, color.r, color.g, color.b,
                                     GetOr(o.brightness, current.brightness),
                                     GetOr(o.onMs, current.onMs),
                                     GetOr(o.offMs, current.offMs))];
      assert p.overrides[..k + 1] == p.overrides[..k] + [o];
      forall i | 0 <= i < |items|
        ensures items[i] == ResolvedWith(p, p.overrides[..k + 1], i)
      {
        OverrideForAppend(p.overrides[..k], o, i);
      }
    }
    assert p.overrides[..|p.overrides|] == p.overrides;
  }

  lemma DistinctIndexUnique(overrides: seq<Override>, o: Override)
    requires DistinctIndices(overrides) && o in overrides
    ensures OverrideFor(overrides, o.index) == Some(o)
  {
    OverrideForMember(overrides, o.index);
  }

  /** Because indices are distinct, the order in which overrides are listed is irrelevant. */
  lemma OverrideOrderIrrelevant(p: Payload, q: Payload)
    requires ValidPayload(p) && ValidPayload(q)
    requires p.answers == q.answers && p.defaults == q.defaults && p.palette == q.palette
    requires multiset(p.overrides) == multiset(q.overrides)
    ensures Resolved(p) == Resolved(q)
  {
    forall i | 0 <= i < |p.answers|
      ensures OverrideFor(p.overrides, i) == OverrideFor(q.overrides, i)
    {
      OverrideForMember(p.overrides, i);
      OverrideForMember(q.overrides, i);
      forall o: Override | o.index == i
        ensures o in p.overrides <==> o in q.overrides
      {
        assert o in p.overrides <==> o in multiset(p.overrides);
        assert o in q.overrides <==> o in multiset(q.overrides);
      }
      if OverrideFor(p.overrides, i).Some? {
        DistinctIndexUnique(q.overrides, OverrideFor(p.overrides, i).value);
      }
    }
  }

  /**
   What an item shows: the letter of its position, and each of colour, brightness and times from the override of that
   position if it gives one, else from the palette and the defaults.
   */
  lemma ItemMeaning(p: Payload, i: nat)
    requires ValidPayload(p) && i < |p.answers|
    ensures var item := Resolved(p)[i];
      && item.answer == p.answers[i]
      && ((forall o :: o in p.overrides ==> o.index != i) ==>
            var c := p.palette[p.answers[i]];
            item == Item(p.answers[i], c.r, c.g, c.b, p.defaults.brightness, p.defaults.onMs, p.defaults.offMs))
      && (forall o :: o in p.overrides && o.index == i ==>
            var c := match o.rgb case Some(rgb) => rgb case None => p.palette[p.answers[i]];
            && (item.r, item.g, item.b) == (c.r, c.g, c.b)
            && item.brightness == (match o.brightness case Some(n) => n case None => p.defaults.brightness)
            && item.onMs == (match o.onMs case Some(n) => n case None => p.defaults.onMs)
            && item.offMs == (match o.offMs case Some(n) => n case None => p.defaults.offMs))
  {
    OverrideForMember(p.overrides, i);
    forall o | o in p.overrides && o.index == i
      ensures OverrideFor(p.overrides, i) == Some(o)
    {
      DistinctIndexUnique(p.overrides, o);
    }
  }

  // ---------- Canonical bytes ----------

  /** struct.pack("<I", n). */
  function Le32(n: int): (b: seq<byte>)
    requires 0 <= n < 0x1_0000_0000
    ensures |b| == 4
  {
    [n % 256, n / 256 % 256, n / 65536 % 256, n / 16777216]
  }

  function FromLe32(b: seq<byte>): int
    requires |b| == 4
  {
    b[0] as int + 256 * b[1] as int + 65536 * b[2] as int + 16777216 * b[3] as int
  }

  lemma Le32RoundTrip(n: int)
    requires 0 <= n < 0x1_0000_0000
    ensures FromLe32(Le32(n)) == n
  {
    assert n / 65536 == n / 256 / 256;
    assert n / 16777216 == n / 256 / 256 / 256;
  }

  /** struct.pack("<BBBBBII", ...) of one item. */
  function PackItem(i: Item): (b: seq<byte>)
    requires ValidItem(i)
    ensures |b| == 13
  {
    [i.answer as int, i.r, i.g, i.b, i.brightness] + Le32(i.onMs) + Le32(i.offMs)
  }

  function PackItems(items: seq<Item>): seq<byte>
    requires forall i :: 0 <= i < |items| ==> ValidItem(items[i])
  {
    if items == [] then [] else PackItem(items[0]) + PackItems(items[1..])
  }

  function CanonicalBytes(p: Payload): seq<byte>
    requires ValidPayload(p)
  {
    PackItems(Resolved(p))
  }

  /** The firmware's view: one item from 13 little-endian bytes. */
  function UnpackItem(b: seq<byte>): Item
    requires |b| == 13 && b[0] < 128
  {
    Item(b[0] as char, b[1], b[2], b[3], b[4], FromLe32(b[5..9]), FromLe32(b[9..13]))
  }

  function UnpackItems(b: seq<byte>): Option<seq<Item>> {
    if b == [] then Some([])
    else if |b| < 13 || b[0] >= 128 then None
    else
      match UnpackItems(b[13..])
      case Some(rest) => Some([UnpackItem(b[..13])] + rest)
      case None => None
  }

  lemma UnpackPacked(i: Item)
    requires ValidItem(i)
    ensures PackItem(i)[0] < 128 && UnpackItem(PackItem(i)) == i
  {
    var b := PackItem(i);
    assert b[5..9] == Le32(i.onMs);
    assert b[9..13] == Le32(i.offMs);
    Le32RoundTrip(i.onMs);
    Le32RoundTrip(i.offMs);
  }

  lemma {:induction false} UnpackPackedItems(items: seq<Item>)
    requires forall i :: 0 <= i < |items| ==> ValidItem(items[i])
    ensures |PackItems(items)| == 13 * |items|
    ensures UnpackItems(PackItems(items)) == Some(items)
  {
    if items != [] {
      var b := PackItems(items);
      UnpackPacked(items[0]);
      UnpackPackedItems(items[1..]);
      assert b[..13] == PackItem(items[0]) && b[13..] == PackItems(items[1..]);
      assert [items[0]] + items[1..] == items;
    }
  }

  lemma Le32Back(b: seq<byte>)
    requires |b| == 4
    ensures 0 <= FromLe32(b) < 0x1_0000_0000 && Le32(FromLe32(b)) == b
  {
    var n := FromLe32(b);
    var high := b[1] as int + 256 * b[2] as int + 65536 * b[3] as int;
    assert n == b[0] as int + 256 * high;
    assert n / 256 == high && n % 256 == b[0];
    var higher := b[2] as int + 256 * b[3] as int;
    assert high == b[1] as int + 256 * higher;
    assert high / 256 == higher && high % 256 == b[1];
    assert n / 65536 == n / 256 / 256 && n / 16777216 == n / 256 / 256 / 256;
  }

  /** Bytes that decode to valid items are the packing of those items. */
  lemma {:induction false} PackUnpacked(b: seq<byte>, items: seq<Item>)
    requires UnpackItems(b) == Some(items) && forall i :: 0 <= i < |items| ==> ValidItem(items[i])
    ensures b == PackItems(items)
  {
    hide Le32, FromLe32;
    if b != [] {
      var first := b[..13];
      assert items == [UnpackItem(first)] + UnpackItems(b[13..]).value;
      assert items[1..] == UnpackItems(b[13..]).value;
      PackUnpacked(b[13..], items[1..]);
      Le32Back(first[5..9]);
      Le32Back(first[9..13]);
      assert PackItem(items[0]) == first[..5] + first[5..9] + first[9..13];
      assert b == first + b[13..];
    }
  }

  /** Canonical bytes are 13 per item and decode to exactly the resolved items. */
  lemma CanonicalRoundTrip(p: Payload)
    requires ValidPayload(p)
    ensures |CanonicalBytes(p)| == 13 * p.itemCount
    ensures UnpackItems(CanonicalBytes(p)) == Some(Resolved(p))
  {
    UnpackPackedItems(Resolved(p));
  }

  /** Two payloads have the same canonical bytes exactly when they show the same items. */
  lemma CanonicalInjective(p: Payload, q: Payload)
    requires ValidPayload(p) && ValidPayload(q)
    ensures CanonicalBytes(p) == CanonicalBytes(q) <==> Resolved(p) == Resolved(q)
  {
    CanonicalRoundTrip(p);
    CanonicalRoundTrip(q);
  }

  // ---------- Building ----------

  function PayloadSha(sha: Sha256, p: Payload): Digest
    requires ValidPayload(p)
  {
    sha(CanonicalBytes(p))
  }

  /** A validated draft completed with its digest; None stands for a validation error. */
  function Signed(sha: Sha256, draft: Payload): Option<Payload> {
    if ValidPayload(draft) then Some(draft.(sha256 := PayloadSha(sha, draft))) else None
  }

  function Draft(sessionId: string, sequenceId: string, revision: int, answers: string,
                 defaults: Defaults, palette: Palette, overrides: seq<Override>): Payload
  {
    Payload(1, sessionId, sequenceId, revision, |answers|, Zeros(64), answers, defaults, palette, overrides)
  }

  /** build_payload: the signed draft. */
  function BuildPayload(sha: Sha256, sessionId: string, sequenceId: string, revision: int, answers: string,
                        defaults: Defaults, palette: Palette, overrides: seq<Override>): Option<Payload>
  {
    Signed(sha, Draft(sessionId, sequenceId, revision, answers, defaults, palette, overrides))
  }

  /** What is built is valid, passes its own digest check, and its digest covers only what is shown. */
  lemma BuiltPayload(sha: Sha256, sessionId: string, sequenceId: string, revision: int, answers: string,
                     defaults: Defaults, palette: Palette, overrides: seq<Override>)
    requires BuildPayload(sha, sessionId, sequenceId, revision, answers, defaults, palette, overrides).Some?
    ensures var p := BuildPayload(sha, sessionId, sequenceId, revision, answers, defaults, palette, overrides).value;
      && ValidPayload(p) && PayloadSha(sha, p) == p.sha256
      && p == Payload(1, sessionId, sequenceId, revision, |answers|, p.sha256, answers, defaults, palette, overrides)
  {
    var draft := Draft(sessionId, sequenceId, revision, answers, defaults, palette, overrides);
    assert Resolved(draft) == Resolved(Signed(sha, draft).value);
  }

  /** A built payload carries the digest of the one byte string that a reader decodes to its items. */
  lemma DigestMeaning(sha: Sha256, sessionId: string, sequenceId: string, revision: int, answers: string,
                      defaults: Defaults, palette: Palette, overrides: seq<Override>, b: seq<byte>)
    requires BuildPayload(sha, sessionId, sequenceId, revision, answers, defaults, palette, overrides).Some?
    requires ValidPayload(BuildPayload(sha, sessionId, sequenceId, revision, answers, defaults, palette, overrides).value)
    ensures var p := BuildPayload(sha, sessionId, sequenceId, revision, answers, defaults, palette, overrides).value;
      UnpackItems(b) == Some(Resolved(p)) ==> p.sha256 == sha(b)
  {
    hide PackItems, UnpackItems;
    var p := BuildPayload(sha, sessionId, sequenceId, revision, answers, defaults, palette, overrides).value;
    var draft := Draft(sessionId, sequenceId, revision, answers, defaults, palette, overrides);
    assert Resolved(draft) == Resolved(p);
    if UnpackItems(b) == Some(Resolved(p)) {
      PackUnpacked(b, Resolved(p));
    }
  }

  /** The digest does not depend on the session, the sequence id or the revision. */
  lemma ShaIgnoresIdentity(sha: Sha256, p: Payload, q: Payload)
    requires ValidPayload(p) && ValidPayload(q)
    requires p.answers == q.answers && p.defaults == q.defaults
    requires p.palette == q.palette && p.overrides == q.overrides
    ensures PayloadSha(sha, p) == PayloadSha(sha, q)
  {
    assert Resolved(p) == Resolved(q);
  }
}
