/** Object keys of storage/keys.py and their parser in capture/orphans.py. */
module StorageKeys {
  import opened Wrappers
  import opened Decimal

  datatype FrameAddress = FrameAddress(session: string, capture: string, index: int)

  function FrameKey(sid: string, cid: string, index: int): string {
    "sessions/" + (sid + ("/frames/" + (cid + ("/" + (DecInt(index) + ".jpg")))))
  }

  predicate SlashFree(s: string) {
    '/' !in s
  }

  /** key.split("/"). */
  function Split(s: string): (parts: seq<string>)
    ensures |parts| > 0
  {
    if s == "" then [""]
    else if s[0] == '/' then [""] + Split(s[1..])
    else var rest := Split(s[1..]); [[s[0]] + rest[0]] + rest[1..]
  }

  /** name.rsplit(".", 1)[0]. */
  function Stem(s: string): string {
    if '.' !in s then s
    else if s[|s| - 1] == '.' then s[..|s| - 1]
    else Stem(s[..|s| - 1])
  }

  /** parse_frame_key. */
  function ParseFrameKey(key: string): Option<FrameAddress> {
    var parts := Split(key);
    if |parts| != 5 || parts[0] != "sessions" || parts[2] != "frames" then None
    else
      match ParseInt(Stem(parts[4]))
      case None => None
      case Some(index) => Some(FrameAddress(parts[1], parts[3], index))
  }

  // ---------- Splitting what was joined ----------

  lemma {:induction false} SplitPart(part: string, rest: string)
    requires SlashFree(part)
    ensures Split(part + ("/" + rest)) == [part] + Split(rest)
  {
    if part == "" {
      assert (part + ("/" + rest))[1..] == rest;
    } else {
      SplitPart(part[1..], rest);
      assert (part + ("/" + rest))[1..] == part[1..] + ("/" + rest);
      assert [part[0]] + part[1..] == part;
    }
  }

  lemma {:induction false} SplitLast(part: string)
    requires SlashFree(part)
    ensures Split(part) == [part]
  {
    if part != "" {
      SplitLast(part[1..]);
      assert [part[0]] + part[1..] == part;
    }
  }

  function Slashes(s: string): nat {
    if s == "" then 0 else (if s[0] == '/' then 1 else 0) + Slashes(s[1..])
  }

  lemma {:induction false} SplitCount(s: string)
    ensures |Split(s)| == Slashes(s) + 1
  {
    if s != "" {
      SplitCount(s[1..]);
    }
  }

  lemma {:induction false} SlashesConcat(a: string, b: string)
    ensures Slashes(a + b) == Slashes(a) + Slashes(b)
  {
    if a == "" {
      assert a + b == b;
    } else {
      SlashesConcat(a[1..], b);
      assert (a + b)[1..] == a[1..] + b;
    }
  }

  lemma {:induction false} NoSlashes(s: string)
    ensures Slashes(s) == 0 <==> SlashFree(s)
  {
    if s != "" {
      NoSlashes(s[1..]);
      assert s == [s[0]] + s[1..];
    }
  }

  lemma DecSlashFree(n: int)
    ensures SlashFree(DecInt(n)) && SlashFree(DecInt(n) + ".jpg")
  {
    var s := DecInt(n);
    var digits := if n < 0 then Dec(-n) else Dec(n);
    assert AllDigits(digits);
    assert forall i :: 0 <= i < |digits| ==> digits[i] != '/';
    assert s == if n < 0 then "-" + digits else digits;
  }

  lemma StemOfJpg(s: string)
    ensures Stem(s + ".jpg") == s
  {
    var t := s + ".jpg";
    assert t[|s|] == '.';
    assert t[..|t| - 1] == s + ".jp" && (s + ".jp")[..|s| + 2] == s + ".j" && (s + ".j")[..|s| + 1] == s + ".";
    assert (s + ".jp")[|s|] == '.' && (s + ".j")[|s|] == '.' && (s + ".")[|s|] == '.';
    assert Stem(s + ".") == s;
    assert Stem(s + ".j") == s;
    assert Stem(s + ".jp") == s;
  }

  lemma FrameKeyParts(sid: string, cid: string, index: int)
    requires SlashFree(sid) && SlashFree(cid)
    ensures Split(FrameKey(sid, cid, index)) == ["sessions", sid, "frames", cid, DecInt(index) + ".jpg"]
  {
    hide Split, DecInt;
    var name := DecInt(index) + ".jpg";
    DecSlashFree(index);
    SplitLast(name);
    SplitPart(cid, name);
    SplitPart("frames", cid + ("/" + name));
    SplitPart(sid, "frames/" + (cid + ("/" + name)));
    SplitPart("sessions", sid + ("/frames/" + (cid + ("/" + name))));
    assert "frames" + ("/" + (cid + ("/" + name))) == "frames/" + (cid + ("/" + name));
    assert "/" + ("frames/" + (cid + ("/" + name))) == "/frames/" + (cid + ("/" + name));
    assert "sessions" + ("/" + (sid + ("/frames/" + (cid + ("/" + name))))) == FrameKey(sid, cid, index);
  }

  /** The parser recovers a frame's address from its key exactly when neither id holds a slash. */
  lemma ParseOfFrameKey(sid: string, cid: string, index: int)
    ensures ParseFrameKey(FrameKey(sid, cid, index)) == Some(FrameAddress(sid, cid, index))
            <==> SlashFree(sid) && SlashFree(cid)
  {
    hide DecInt, ParseInt, Stem;
    if SlashFree(sid) && SlashFree(cid) {
      FrameKeyParts(sid, cid, index);
      StemOfJpg(DecInt(index));
      ParsePrinted(index);
    } else {
      FrameKeySlashes(sid, cid, index);
      SplitCount(FrameKey(sid, cid, index));
    }
  }

  lemma FrameKeySlashes(sid: string, cid: string, index: int)
    requires !(SlashFree(sid) && SlashFree(cid))
    ensures Slashes(FrameKey(sid, cid, index)) > 4
  {
    hide Slashes, DecInt;
    var name := DecInt(index) + ".jpg";
    NoSlashes(sid);
    NoSlashes(cid);
    SlashesConcat("/", name);
    SlashesConcat(cid, "/" + name);
    SlashesConcat("/frames/", cid + ("/" + name));
    SlashesConcat(sid, "/frames/" + (cid + ("/" + name)));
    SlashesConcat("sessions/", sid + ("/frames/" + (cid + ("/" + name))));
    LiteralSlashes();
  }

  lemma OneSlash()
    ensures Slashes("/") == 1
  {
  }

  lemma LiteralSlashes()
    ensures Slashes("/") == 1 && Slashes("/frames/") == 2 && Slashes("sessions/") == 1
  {
    hide Slashes;
    OneSlash();
    SlashesConcat("/", "frames/");
    SlashesConcat("frames", "/");
    SlashesConcat("sessions", "/");
    NoSlashes("frames");
    NoSlashes("sessions");
    assert "/" + "frames/" == "/frames/" && "frames" + "/" == "frames/" && "sessions" + "/" == "sessions/";
  }

  /** Frames at different addresses have different keys, for ids without slashes. */
  lemma FrameKeyInjective(sid: string, cid: string, index: int, sid': string, cid': string, index': int)
    requires SlashFree(sid) && SlashFree(cid) && SlashFree(sid') && SlashFree(cid')
    requires FrameKey(sid, cid, index) == FrameKey(sid', cid', index')
    ensures sid == sid' && cid == cid' && index == index'
  {
    hide FrameKey, ParseFrameKey;
    ParseOfFrameKey(sid, cid, index);
    ParseOfFrameKey(sid', cid', index');
  }

  /** With slashes in the ids, two frames can share a key. */
  lemma FrameKeyCollides(a: string, b: string, c: string, index: int)
    ensures FrameKey(a, b + ("/frames/" + c), index) == FrameKey(a + ("/frames/" + b), c, index)
  {
    var tail := "/" + (DecInt(index) + ".jpg");
    assert (b + ("/frames/" + c)) + tail == b + ("/frames/" + (c + tail));
    assert (a + ("/frames/" + b)) + ("/frames/" + (c + tail)) == a + ("/frames/" + (b + ("/frames/" + (c + tail))));
  }
}
