/** The JSON form of a call detail record (`cdr_to_json`) and the
    key-search reader that loads it back (`json_find_*`, `json_to_cdr`).
    The document is a fixed sequence of `"key": value` fields; the reader
    finds each key by substring search, so the round trip rests on no
    value being able to imitate a key. */
module CdrJson {
  import opened Wrappers
  import opened Text
  import opened CString
  import opened MagicCdr

  // ------------------------------------------------------- the document

  /** How a value follows `"key": `. */
  datatype Val = Num(text: string) | Str(s: string) | Open

  /** One `"key": value` entry and the separator after it. */
  datatype Field = Field(key: string, val: Val, sep: string)

  function ValText(v: Val): string {
    match v
    case Num(t) => t
    case Str(s) => "\"" + s + "\""
    case Open => "{"
  }

  function FieldText(f: Field): string {
    "\"" + f.key + "\": " + ValText(f.val) + f.sep
  }

  function Render(fs: seq<Field>): string {
    if |fs| == 0 then "" else FieldText(fs[0]) + Render(fs[1..])
  }

  /** The keys of the `cdr_to_json` format, in order. */
  const Keys: seq<string> := [
    "cdr_id", "cdr_uuid", "session_id", "client_id", "dlm_name", "bearer_id",
    "status", "status_code", "start_time", "stop_time", "archive_time",
    "traffic", "bytes_in", "bytes_out", "packets_in", "packets_out",
    "base_offset_in", "base_offset_out",
    "overflow", "count_in", "count_out", "last_bytes_in", "last_bytes_out"]

  /** The text after each value: the line break and indentation, and the
      closing braces of the two groups. */
  const Seps: seq<string> := [
    ",\n  ", ",\n  ", ",\n  ", ",\n  ", ",\n  ", ",\n  ",
    ",\n  ", ",\n  ", ",\n  ", ",\n  ", ",\n  ",
    "\n    ", ",\n    ", ",\n    ", ",\n    ", ",\n    ",
    ",\n    ", "\n  },\n  ",
    "\n    ", ",\n    ", ",\n    ", ",\n    ", "\n  }\n}\n"]

  const Opening: string := "{\n  "

  /** The value `cdr_to_json` prints for key `i`: `%u`, `%lu`, `%d` and
      `%ld` as decimal text, strings between quotes. */
  function ValueOf(c: Cdr, i: nat): Val {
    match i
    case 0 => Num(NatToString(c.id))
    case 1 => Str(c.uuid)
    case 2 => Str(c.sessionId)
    case 3 => Str(c.clientId)
    case 4 => Str(c.dlmName)
    case 5 => Num(NatToString(c.bearerId))
    case 6 => Str(StatusName(c.status))
    case 7 => Num(IntToString(c.status))
    case 8 => Num(IntToString(c.startTime))
    case 9 => Num(IntToString(c.stopTime))
    case 10 => Num(IntToString(c.archiveTime))
    case 12 => Num(NatToString(c.bytesIn))
    case 13 => Num(NatToString(c.bytesOut))
    case 14 => Num(NatToString(c.packetsIn))
    case 15 => Num(NatToString(c.packetsOut))
    case 16 => Num(NatToString(c.baseIn))
    case 17 => Num(NatToString(c.baseOut))
    case 19 => Num(NatToString(c.overflowIn))
    case 20 => Num(NatToString(c.overflowOut))
    case 21 => Num(NatToString(c.lastIn))
    case 22 => Num(NatToString(c.lastOut))
    case _ => Open
  }

  function Fields(c: Cdr): (fs: seq<Field>)
    ensures |fs| == |Keys|
    ensures forall i :: 0 <= i < |fs| ==> fs[i] == Field(Keys[i], ValueOf(c, i), Seps[i])
  {
    seq(|Keys|, i requires 0 <= i < |Keys| => Field(Keys[i], ValueOf(c, i), Seps[i]))
  }

  /** The text `cdr_to_json` prints for a record. */
  function ToJson(c: Cdr): string {
    Opening + Render(Fields(c))
  }

  /** `cdr_to_json` into a buffer of `bufSize` bytes: refused below 512
      bytes and when the text does not fit with its terminating NUL. */
  function ToJsonBuffer(c: Cdr, bufSize: nat): (r: Option<string>)
    ensures r.Some? <==> 512 <= bufSize && |ToJson(c)| < bufSize
    ensures r.Some? ==> r.value == ToJson(c)
  {
    if bufSize < 512 then None
    else
      var t := ToJson(c);
      if |t| < bufSize then Some(t) else None
  }

  // --------------------------------------------------------- the reader

  /** The search string `"key":`. */
  function Needle(key: string): string {
    "\"" + key + "\":"
  }

  /** The spaces and tabs `json_find_*` step over after the key. */
  function SkipBlanks(s: string): (r: string)
    ensures IsSuffix(r, s) && (|r| == 0 || (r[0] != ' ' && r[0] != '\t'))
  {
    if |s| > 0 && (s[0] == ' ' || s[0] == '\t') then
      var r := SkipBlanks(s[1..]);
      assert s[|s| - |r|..] == s[1..][|s| - 1 - |r|..];
      r
    else s
  }

  /** The text after the first `"key":` and the blanks following it. */
  function After(json: string, key: string): Option<string> {
    match Search(Needle(key), json)
    case None => None
    case Some(p) => Some(SkipBlanks(json[p + |Needle(key)|..]))
  }

  /** The 256-byte static buffer of `json_find_string`. */
  const StringBuffer: nat := 256

  /** `json_find_string`: a quoted value whose closing quote is within the
      buffer, otherwise nothing. */
  function FindString(json: string, key: string): (r: Option<string>)
    ensures r.Some? ==> |r.value| < StringBuffer && '"' !in r.value
  {
    match After(json, key)
    case None => None
    case Some(t) =>
      if |t| > 0 && t[0] == '"' then
        match IndexOf(t[1..], '"')
        case None => None
        case Some(e) => if e < StringBuffer then Some(t[1..][..e]) else None
      else None
  }

  /** `json_find_long`: `atol` of the value, 0 without the key. */
  function FindLong(json: string, key: string): int {
    match After(json, key)
    case None => 0
    case Some(t) => Atoi(t)
  }

  /** `json_find_ulong`: `strtoul` of the value, 0 without the key. */
  function FindULong(json: string, key: string): (r: nat)
    ensures r < U64
  {
    match After(json, key)
    case None => 0
    case Some(t) => Strtoul(t)
  }

  /** The truncating `strncpy` of a found string into a zeroed field. */
  function CopyInto(found: Option<string>, cap: nat): (r: string)
    ensures |r| <= cap
  {
    match found
    case None => ""
    case Some(s) => Bounded(s, cap)
  }

  /** `json_to_cdr`: a zeroed record filled from the keys, with `in_use`
      set for ACTIVE records. */
  function FromJson(json: string): (c: Cdr)
    ensures Fits(c)
    ensures c.inUse <==> c.status == StatusActive
  {
    var status := CastI32(FindLong(json, "status_code"));
    Zeroed.(
      id := CastU32(FindULong(json, "cdr_id")),
      uuid := CopyInto(FindString(json, "cdr_uuid"), UuidCap),
      sessionId := CopyInto(FindString(json, "session_id"), SessionCap),
      clientId := CopyInto(FindString(json, "client_id"), ClientCap),
      dlmName := CopyInto(FindString(json, "dlm_name"), DlmCap),
      bearerId := CastU8(FindULong(json, "bearer_id")),
      status := status,
      startTime := FindLong(json, "start_time"),
      stopTime := FindLong(json, "stop_time"),
      archiveTime := FindLong(json, "archive_time"),
      bytesIn := FindULong(json, "bytes_in"),
      bytesOut := FindULong(json, "bytes_out"),
      packetsIn := FindULong(json, "packets_in"),
      packetsOut := FindULong(json, "packets_out"),
      baseIn := FindULong(json, "base_offset_in"),
      baseOut := FindULong(json, "base_offset_out"),
      overflowIn := CastU32(FindULong(json, "count_in")),
      overflowOut := CastU32(FindULong(json, "count_out")),
      lastIn := FindULong(json, "last_bytes_in"),
      lastOut := FindULong(json, "last_bytes_out"),
      inUse := status == StatusActive)
  }

  // ------------------------------------------- where a key can be found

  predicate QuoteFree(s: string) { '"' !in s }

  /** Every key of the format: a lower-case letter first, no quote. */
  predicate KeyLike(k: string) {
    |k| > 0 && 'a' <= k[0] <= 'z' && QuoteFree(k)
  }

  predicate ValOk(v: Val) {
    match v
    case Num(t) => QuoteFree(t)
    case Str(s) => QuoteFree(s)
    case Open => true
  }

  /** A field whose rendering has quotes only around its key and its
      string value, and whose separator starts with ',' or a line break. */
  predicate FieldOk(f: Field) {
    KeyLike(f.key) && ValOk(f.val)
    && |f.sep| > 0 && (f.sep[0] == ',' || f.sep[0] == '\n') && QuoteFree(f.sep)
  }

  /** Inside a quoted string value, `"K":` cannot start: the value would
      have to be `K` and be followed by ':', but a separator follows. */
  lemma NotInStringValue(s: string, sep: string, rest: string, K: string, j: nat)
    requires QuoteFree(s) && KeyLike(K) && |sep| > 0 && (sep[0] == ',' || sep[0] == '\n')
    requires j < |s| + 2
    ensures !OccursAt(Needle(K), "\"" + s + "\"" + sep + rest, j)
  {
    var t := "\"" + s + "\"" + sep + rest;
    var n := Needle(K);
    if j == 0 {
      if |s| < |K| {
        Mismatch(n, t, j, 1 + |s|);
      } else if |s| > |K| {
        Mismatch(n, t, j, 1 + |K|);
      } else {
        Mismatch(n, t, j, 2 + |K|);
      }
    } else if j < |s| + 1 {
      Mismatch(n, t, j, 0);
    } else {
      Mismatch(n, t, j, 1);
    }
  }

  /** Occurrences past a prefix are occurrences in the remainder. */
  lemma OccursShift(n: string, a: string, u: string, j: nat)
    requires |a| <= j
    ensures OccursAt(n, a + u, j) <==> OccursAt(n, u, j - |a|)
  {
    if j + |n| <= |a + u| {
      assert (a + u)[j..j + |n|] == u[j - |a|..j - |a| + |n|];
    }
  }

  /** Within `"key": `, the needle of another key, or of any key past the
      first character, cannot start. */
  lemma NoNeedleInKey(key: string, u: string, K: string, j: nat)
    requires KeyLike(key) && KeyLike(K) && j < |key| + 4 && |u| > 0
    requires j > 0 || key != K
    ensures !OccursAt(Needle(K), "\"" + key + "\": " + u, j)
  {
    var t := "\"" + key + "\": " + u;
    var n := Needle(K);
    var a := |key|;
    if j == 0 {
      if a < |K| {
        Mismatch(n, t, j, 1 + a);
      } else if a > |K| {
        Mismatch(n, t, j, 1 + |K|);
      } else {
        var i :| 0 <= i < a && key[i] != K[i];
        Mismatch(n, t, j, 1 + i);
      }
    } else if j <= a {
      Mismatch(n, t, j, 0);
    } else if j == a + 1 {
      Mismatch(n, t, j, 1);
    } else {
      Mismatch(n, t, j, 0);
    }
  }

  /** Within a value and its separator, no needle starts. */
  lemma NoNeedleInValue(v: Val, sep: string, rest: string, K: string, j: nat)
    requires ValOk(v) && KeyLike(K) && j < |ValText(v) + sep|
    requires |sep| > 0 && (sep[0] == ',' || sep[0] == '\n') && QuoteFree(sep)
    ensures !OccursAt(Needle(K), ValText(v) + sep + rest, j)
  {
    var t := ValText(v) + sep + rest;
    var n := Needle(K);
    if j < |ValText(v)| {
      match v
      case Num(x) =>
        Mismatch(n, t, j, 0);
      case Open =>
        Mismatch(n, t, j, 0);
      case Str(s) =>
        NotInStringValue(s, sep, rest, K, j);
    } else {
      Mismatch(n, t, j, 0);
    }
  }

  /** `"K":` occurs inside a field's text only at its start, and only when
      the field's key is `K`. */
  lemma NoNeedleInField(f: Field, rest: string, K: string, j: nat)
    requires FieldOk(f) && KeyLike(K) && j < |FieldText(f)|
    requires j > 0 || f.key != K
    ensures !OccursAt(Needle(K), FieldText(f) + rest, j)
  {
    var head := "\"" + f.key + "\": ";
    var u := ValText(f.val) + f.sep + rest;
    assert FieldText(f) + rest == head + u;
    if j < |head| {
      NoNeedleInKey(f.key, u, K, j);
    } else {
      OccursShift(Needle(K), head, u, j);
      NoNeedleInValue(f.val, f.sep, rest, K, j - |head|);
    }
  }

  lemma {:induction false} RenderAppend(a: seq<Field>, b: seq<Field>)
    ensures Render(a + b) == Render(a) + Render(b)
    decreases |a|
  {
    if |a| == 0 {
      assert a + b == b;
    } else {
      assert (a + b)[1..] == a[1..] + b;
      RenderAppend(a[1..], b);
      Regroup(FieldText(a[0]), Render(a[1..]), Render(b));
    }
  }

  predicate AllOk(fs: seq<Field>) {
    forall i :: 0 <= i < |fs| ==> FieldOk(fs[i])
  }

  /** A rendering of fields none of which has key `K` holds no `"K":`. */
  lemma {:induction false} NoNeedleInRender(fs: seq<Field>, rest: string, K: string, j: nat)
    requires AllOk(fs) && KeyLike(K) && j < |Render(fs)|
    requires forall i :: 0 <= i < |fs| ==> fs[i].key != K
    ensures !OccursAt(Needle(K), Render(fs) + rest, j)
    decreases |fs|
  {
    var f := fs[0];
    var r := Render(fs[1..]) + rest;
    Regroup(FieldText(f), Render(fs[1..]), rest);
    if j < |FieldText(f)| {
      NoNeedleInField(f, r, K, j);
    } else {
      OccursShift(Needle(K), FieldText(f), r, j);
      NoNeedleInRender(fs[1..], rest, K, j - |FieldText(f)|);
    }
  }

  /** A field's text is the needle of its key, a space, its value and its
      separator. */
  lemma FieldTextSplit(f: Field, rest: string)
    ensures FieldText(f) + rest == Needle(f.key) + (" " + ValText(f.val) + f.sep + rest)
  {
    var q := "\"" + f.key;
    var v := ValText(f.val);
    assert "\": " == "\":" + " ";
    Regroup(q, "\":", " ");
    Regroup(q + "\":", " ", v);
    Regroup(q + "\":", " " + v, f.sep);
    Regroup(q + "\":", " " + v + f.sep, rest);
  }

  lemma RenderSplit(fs: seq<Field>, i: nat)
    requires i < |fs|
    ensures Render(fs) == Render(fs[..i]) + (FieldText(fs[i]) + Render(fs[i + 1..]))
  {
    assert fs == fs[..i] + fs[i..];
    RenderAppend(fs[..i], fs[i..]);
    assert fs[i..][1..] == fs[i + 1..];
  }

  /** A search whose needle starts with a quote skips a quote-free
      prefix and a stretch without occurrences. */
  lemma SearchPast(pre: string, r1: string, n: string, tail: string)
    requires QuoteFree(pre) && |n| > 0 && n[0] == '"'
    requires forall j | 0 <= j < |r1| :: !OccursAt(n, r1 + (n + tail), j)
    ensures Search(n, pre + (r1 + (n + tail))) == Some(|pre| + |r1|)
    ensures (pre + (r1 + (n + tail)))[|pre| + |r1| + |n|..] == tail
  {
    var u := r1 + (n + tail);
    var text := pre + u;
    var p := |pre| + |r1|;
    assert OccursAt(n, text, p) by {
      assert text[p..p + |n|] == n;
    }
    forall j | 0 <= j < p
      ensures !OccursAt(n, text, j)
    {
      if j < |pre| {
        Mismatch(n, text, j, 0);
      } else {
        OccursShift(n, pre, u, j);
      }
    }
    assert text[p + |n|..] == tail;
  }

  lemma AfterAt(text: string, K: string, p: nat, tail: string)
    requires Search(Needle(K), text) == Some(p)
    requires p + |Needle(K)| <= |text| && text[p + |Needle(K)|..] == tail
    ensures After(text, K) == Some(SkipBlanks(tail))
  {
  }

  lemma FirstAt(pre: string, r1: string, K: string, tail: string)
    requires QuoteFree(pre)
    requires forall j | 0 <= j < |r1| :: !OccursAt(Needle(K), r1 + (Needle(K) + tail), j)
    ensures After(pre + (r1 + (Needle(K) + tail)), K) == Some(SkipBlanks(tail))
  {
    SearchPast(pre, r1, Needle(K), tail);
    AfterAt(pre + (r1 + (Needle(K) + tail)), K, |pre| + |r1|, tail);
  }

  /** The search for `"K":` stops at the first field with key `K`, just
      before its value. */
  lemma KeyFound(pre: string, fs: seq<Field>, i: nat, K: string)
    requires QuoteFree(pre) && AllOk(fs) && i < |fs| && fs[i].key == K && KeyLike(K)
    requires forall m :: 0 <= m < i ==> fs[m].key != K
    ensures After(pre + Render(fs), K)
            == Some(SkipBlanks(" " + ValText(fs[i].val) + fs[i].sep + Render(fs[i + 1..])))
  {
    var n := Needle(K);
    var r1 := Render(fs[..i]);
    var tail := " " + ValText(fs[i].val) + fs[i].sep + Render(fs[i + 1..]);
    RenderSplit(fs, i);
    FieldTextSplit(fs[i], Render(fs[i + 1..]));
    forall j | 0 <= j < |r1|
      ensures !OccursAt(n, r1 + (n + tail), j)
    {
      NoNeedleInRender(fs[..i], n + tail, K, j);
    }
    FirstAt(pre, r1, K, tail);
    assert Render(fs) == r1 + (n + tail);
  }

  lemma SkipOneBlank(x: string)
    requires |x| > 0 && x[0] != ' ' && x[0] != '\t'
    ensures SkipBlanks(" " + x) == x
  {
    assert (" " + x)[1..] == x;
  }

  /** The field is the first with key `K` in a document of sound fields. */
  predicate FirstWithKey(pre: string, fs: seq<Field>, i: nat, K: string) {
    QuoteFree(pre) && AllOk(fs) && i < |fs| && fs[i].key == K && KeyLike(K)
    && forall m :: 0 <= m < i ==> fs[m].key != K
  }

  /** The text after key `K` in `json` is the value text `t` then `rest`. */
  predicate ValueAt(json: string, K: string, t: string, rest: string) {
    After(json, K) == Some(SkipBlanks(" " + t + rest))
  }

  lemma ValueAtField(pre: string, fs: seq<Field>, i: nat, K: string)
    requires FirstWithKey(pre, fs, i, K)
    ensures ValueAt(pre + Render(fs), K, ValText(fs[i].val), fs[i].sep + Render(fs[i + 1..]))
  {
    KeyFound(pre, fs, i, K);
    Regroup(" " + ValText(fs[i].val), fs[i].sep, Render(fs[i + 1..]));
  }

  /** `strtoul` reads back a `%lu` rendering followed by a non-digit. */
  lemma StrtoulOfNatThen(v: nat, rest: string)
    requires v < U64 && |rest| > 0 && !IsDigit(rest[0])
    ensures Strtoul(NatToString(v) + rest) == v
  {
    assert IntToString(v) == NatToString(v);
    AtoiOfIntToStringThen(v, rest);
    StrtoulInRange(NatToString(v) + rest);
  }

  lemma ULongAt(json: string, K: string, v: nat, rest: string)
    requires ValueAt(json, K, NatToString(v), rest) && v < U64
    requires |rest| > 0 && !IsDigit(rest[0])
    ensures FindULong(json, K) == v
  {
    var digits := NatToString(v);
    Regroup(" ", digits, rest);
    SkipOneBlank(digits + rest);
    StrtoulOfNatThen(v, rest);
  }

  lemma LongAt(json: string, K: string, v: int, rest: string)
    requires ValueAt(json, K, IntToString(v), rest)
    requires |rest| > 0 && !IsDigit(rest[0])
    ensures FindLong(json, K) == v
  {
    var text := IntToString(v);
    Regroup(" ", text, rest);
    assert text[0] == '-' || IsDigit(text[0]);
    SkipOneBlank(text + rest);
    AtoiOfIntToStringThen(v, rest);
  }

  /** A quoted quote-free string: its closing quote is the first after
      the opening one. */
  lemma QuotedThen(v: string, rest: string)
    requires QuoteFree(v)
    ensures var t := "\"" + v + "\"" + rest;
      t[0] == '"' && IndexOf(t[1..], '"') == Some(|v|) && t[1..][..|v|] == v
  {
    var t := "\"" + v + "\"" + rest;
    assert t[1..] == v + "\"" + rest;
    IndexOfAfter(v, '"', rest);
  }

  lemma StringAt(json: string, K: string, v: string, rest: string)
    requires ValueAt(json, K, "\"" + v + "\"", rest) && QuoteFree(v) && |v| < StringBuffer
    ensures FindString(json, K) == Some(v)
  {
    Regroup(" ", "\"" + v + "\"", rest);
    SkipOneBlank("\"" + v + "\"" + rest);
    QuotedThen(v, rest);
  }

  /** `json_find_ulong` reads back a `%lu` value. */
  lemma ReadsULong(pre: string, fs: seq<Field>, i: nat, K: string, v: nat)
    requires FirstWithKey(pre, fs, i, K) && fs[i].val == Num(NatToString(v)) && v < U64
    ensures FindULong(pre + Render(fs), K) == v
  {
    ValueAtField(pre, fs, i, K);
    ULongAt(pre + Render(fs), K, v, fs[i].sep + Render(fs[i + 1..]));
  }

  /** `json_find_long` reads back a `%d` or `%ld` value. */
  lemma ReadsLong(pre: string, fs: seq<Field>, i: nat, K: string, v: int)
    requires FirstWithKey(pre, fs, i, K) && fs[i].val == Num(IntToString(v))
    ensures FindLong(pre + Render(fs), K) == v
  {
    ValueAtField(pre, fs, i, K);
    LongAt(pre + Render(fs), K, v, fs[i].sep + Render(fs[i + 1..]));
  }

  /** `json_find_string` reads back a quoted value shorter than its
      buffer. */
  lemma ReadsString(pre: string, fs: seq<Field>, i: nat, K: string, v: string)
    requires FirstWithKey(pre, fs, i, K) && fs[i].val == Str(v) && |v| < StringBuffer
    ensures FindString(pre + Render(fs), K) == Some(v)
  {
    ValueAtField(pre, fs, i, K);
    StringAt(pre + Render(fs), K, v, fs[i].sep + Render(fs[i + 1..]));
  }

  // ------------------------------------------------------ the round trip

  /** A record `cdr_to_json` can print and `json_to_cdr` read back: it
      fits its C fields, its strings hold no quote and its status is an
      `int`. */
  predicate Storable(c: Cdr) {
    Fits(c) && QuoteFree(c.uuid) && QuoteFree(c.sessionId)
    && QuoteFree(c.clientId) && QuoteFree(c.dlmName)
    && -0x8000_0000 <= c.status < 0x8000_0000
  }

  lemma NatOk(n: nat)
    ensures ValOk(Num(NatToString(n)))
  {
  }

  lemma IntOk(i: int)
    ensures ValOk(Num(IntToString(i)))
  {
    var s := NatToString(if i < 0 then -i else i);
    assert IntToString(i) == s || IntToString(i) == "-" + s;
  }

  lemma KeysOk()
    ensures |Keys| == 23
    ensures forall m :: 0 <= m < |Keys| ==> KeyLike(Keys[m])
  {
  }

  lemma SepsOk()
    ensures |Seps| == 23
    ensures forall m :: 0 <= m < |Seps| ==>
      |Seps[m]| > 0 && (Seps[m][0] == ',' || Seps[m][0] == '\n') && QuoteFree(Seps[m])
  {
  }

  lemma KeysDistinct()
    ensures forall m, i :: 0 <= m < i < |Keys| ==> Keys[m] != Keys[i]
  {
  }

  lemma ValuesOk(c: Cdr)
    requires Storable(c)
    ensures forall m :: 0 <= m < |Keys| ==> ValOk(ValueOf(c, m))
  {
    NatOk(c.id); NatOk(c.bearerId);
    IntOk(c.status); IntOk(c.startTime); IntOk(c.stopTime); IntOk(c.archiveTime);
    NatOk(c.bytesIn); NatOk(c.bytesOut); NatOk(c.packetsIn); NatOk(c.packetsOut);
    NatOk(c.baseIn); NatOk(c.baseOut);
    NatOk(c.overflowIn); NatOk(c.overflowOut); NatOk(c.lastIn); NatOk(c.lastOut);
  }

  lemma FieldsOk(c: Cdr)
    requires Storable(c)
    ensures AllOk(Fields(c))
  {
    KeysOk();
    SepsOk();
    ValuesOk(c);
    var fs := Fields(c);
    forall m | 0 <= m < |fs|
      ensures FieldOk(fs[m])
    {
    }
  }

  /** Field `i` of a storable record's document is the first with its key. */
  lemma FirstInDocument(c: Cdr, i: nat)
    requires Storable(c) && i < |Keys|
    ensures FirstWithKey(Opening, Fields(c), i, Keys[i])
  {
    FieldsOk(c);
    KeysOk();
    KeysDistinct();
  }

  lemma ULongField(c: Cdr, i: nat, K: string, v: nat)
    requires Storable(c) && i < |Keys| && Keys[i] == K
    requires ValueOf(c, i) == Num(NatToString(v)) && v < U64
    ensures FindULong(ToJson(c), K) == v
  {
    FirstInDocument(c, i);
    ReadsULong(Opening, Fields(c), i, K, v);
  }

  lemma LongField(c: Cdr, i: nat, K: string, v: int)
    requires Storable(c) && i < |Keys| && Keys[i] == K && ValueOf(c, i) == Num(IntToString(v))
    ensures FindLong(ToJson(c), K) == v
  {
    FirstInDocument(c, i);
    ReadsLong(Opening, Fields(c), i, K, v);
  }

  lemma StringField(c: Cdr, i: nat, K: string, v: string)
    requires Storable(c) && i < |Keys| && Keys[i] == K
    requires ValueOf(c, i) == Str(v) && |v| < StringBuffer
    ensures FindString(ToJson(c), K) == Some(v)
  {
    FirstInDocument(c, i);
    ReadsString(Opening, Fields(c), i, K, v);
  }

  /** The identity fields read back from a storable record's document. */
  lemma IdentityReadBack(c: Cdr)
    requires Storable(c)
    ensures var json := ToJson(c);
      FindULong(json, "cdr_id") == c.id
      && FindString(json, "cdr_uuid") == Some(c.uuid)
      && FindString(json, "session_id") == Some(c.sessionId)
      && FindString(json, "client_id") == Some(c.clientId)
      && FindString(json, "dlm_name") == Some(c.dlmName)
      && FindULong(json, "bearer_id") == c.bearerId
  {
    assert Keys[0] == "cdr_id";
    assert ValueOf(c, 0) == Num(NatToString(c.id));
    assert Keys[1] == "cdr_uuid";
    assert ValueOf(c, 1) == Str(c.uuid);
    assert Keys[2] == "session_id";
    assert ValueOf(c, 2) == Str(c.sessionId);
    assert Keys[3] == "client_id";
    assert ValueOf(c, 3) == Str(c.clientId);
    assert Keys[4] == "dlm_name";
    assert ValueOf(c, 4) == Str(c.dlmName);
    assert Keys[5] == "bearer_id";
    assert ValueOf(c, 5) == Num(NatToString(c.bearerId));
    ULongField(c, 0, "cdr_id", c.id);
    StringField(c, 1, "cdr_uuid", c.uuid);
    StringField(c, 2, "session_id", c.sessionId);
    StringField(c, 3, "client_id", c.clientId);
    StringField(c, 4, "dlm_name", c.dlmName);
    ULongField(c, 5, "bearer_id", c.bearerId);
  }

  /** The status code and the three timestamps read back. */
  lemma LifecycleReadBack(c: Cdr)
    requires Storable(c)
    ensures FindLong(ToJson(c), "status_code") == c.status
    ensures FindLong(ToJson(c), "start_time") == c.startTime
    ensures FindLong(ToJson(c), "stop_time") == c.stopTime
    ensures FindLong(ToJson(c), "archive_time") == c.archiveTime
  {
    assert Keys[7] == "status_code";
    assert ValueOf(c, 7) == Num(IntToString(c.status));
    assert Keys[8] == "start_time";
    assert ValueOf(c, 8) == Num(IntToString(c.startTime));
    assert Keys[9] == "stop_time";
    assert ValueOf(c, 9) == Num(IntToString(c.stopTime));
    assert Keys[10] == "archive_time";
    assert ValueOf(c, 10) == Num(IntToString(c.archiveTime));
    LongField(c, 7, "status_code", c.status);
    LongField(c, 8, "start_time", c.startTime);
    LongField(c, 9, "stop_time", c.stopTime);
    LongField(c, 10, "archive_time", c.archiveTime);
  }

  /** The byte and packet counters of the `traffic` group read back. */
  lemma TrafficReadBack(c: Cdr)
    requires Storable(c)
    ensures var json := ToJson(c);
      FindULong(json, "bytes_in") == c.bytesIn
      && FindULong(json, "bytes_out") == c.bytesOut
      && FindULong(json, "packets_in") == c.packetsIn
      && FindULong(json, "packets_out") == c.packetsOut
  {
    assert Keys[12] == "bytes_in";
    assert ValueOf(c, 12) == Num(NatToString(c.bytesIn));
    assert Keys[13] == "bytes_out";
    assert ValueOf(c, 13) == Num(NatToString(c.bytesOut));
    assert Keys[14] == "packets_in";
    assert ValueOf(c, 14) == Num(NatToString(c.packetsIn));
    assert Keys[15] == "packets_out";
    assert ValueOf(c, 15) == Num(NatToString(c.packetsOut));
    ULongField(c, 12, "bytes_in", c.bytesIn);
    ULongField(c, 13, "bytes_out", c.bytesOut);
    ULongField(c, 14, "packets_in", c.packetsIn);
    ULongField(c, 15, "packets_out", c.packetsOut);
  }

  /** The two base offsets of the `traffic` group read back. */
  lemma OffsetsReadBack(c: Cdr)
    requires Storable(c)
    ensures var json := ToJson(c);
      FindULong(json, "base_offset_in") == c.baseIn
      && FindULong(json, "base_offset_out") == c.baseOut
  {
    assert Keys[16] == "base_offset_in";
    assert ValueOf(c, 16) == Num(NatToString(c.baseIn));
    assert Keys[17] == "base_offset_out";
    assert ValueOf(c, 17) == Num(NatToString(c.baseOut));
    ULongField(c, 16, "base_offset_in", c.baseIn);
    ULongField(c, 17, "base_offset_out", c.baseOut);
  }

  /** The four counters of the `overflow` group read back. */
  lemma OverflowReadBack(c: Cdr)
    requires Storable(c)
    ensures var json := ToJson(c);
      FindULong(json, "count_in") == c.overflowIn
      && FindULong(json, "count_out") == c.overflowOut
      && FindULong(json, "last_bytes_in") == c.lastIn
      && FindULong(json, "last_bytes_out") == c.lastOut
  {
    assert Keys[19] == "count_in";
    assert ValueOf(c, 19) == Num(NatToString(c.overflowIn));
    assert Keys[20] == "count_out";
    assert ValueOf(c, 20) == Num(NatToString(c.overflowOut));
    assert Keys[21] == "last_bytes_in";
    assert ValueOf(c, 21) == Num(NatToString(c.lastIn));
    assert Keys[22] == "last_bytes_out";
    assert ValueOf(c, 22) == Num(NatToString(c.lastOut));
    ULongField(c, 19, "count_in", c.overflowIn);
    ULongField(c, 20, "count_out", c.overflowOut);
    ULongField(c, 21, "last_bytes_in", c.lastIn);
    ULongField(c, 22, "last_bytes_out", c.lastOut);
  }

  /** `json_to_cdr` of `cdr_to_json` gives the record back, with `in_use`
      recomputed from its status: every field but `in_use` survives. */
  lemma RoundTrip(c: Cdr)
    requires Storable(c)
    ensures FromJson(ToJson(c)) == c.(inUse := c.status == StatusActive)
  {
    IdentityReadBack(c);
    LifecycleReadBack(c);
    TrafficReadBack(c);
    OffsetsReadBack(c);
    OverflowReadBack(c);
  }
}
