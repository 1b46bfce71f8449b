/** What the SATCOM and cellular DLM prototypes share: the reader that
    pulls UDP payloads out of `tcpdump -X` text, their Link_Resource
    handler over the common bearer map, and the framing of messages sent
    to the MIHF. The two prototypes differ only in the default
    return-link rate of a request without QoS parameters. */
module DlmPrototype {
  import opened Wrappers
  import opened Text
  import opened CString
  import opened Bytes
  import opened DlmCommon
  import MihProtocol
  import MihfSimulator

  /** `uint8_t pkt[4096]`. */
  const PacketCap: nat := 4096
  /** `uint8_t buf[2048]` in `dlm_send_to_mihf`. */
  const FrameCap: nat := 2048

  /** The return-link rate a request without QoS asks for. */
  const SatcomDefaultRl: nat := 200
  const CellularDefaultRl: nat := 500
  const DefaultFl: nat := 1000

  // ------------------------------------------------------------- hex text

  /** `isxdigit`. */
  predicate IsXDigit(c: char) {
    '0' <= c <= '9' || 'a' <= c <= 'f' || 'A' <= c <= 'F'
  }

  /** `dlm_hex_nibble`: the value of a hex digit, −1 for anything else. */
  function HexNibble(c: char): (d: int)
    ensures -1 <= d < 16
    ensures d >= 0 <==> IsXDigit(c)
  {
    if '0' <= c <= '9' then c as int - '0' as int
    else if 'a' <= c <= 'f' then 10 + (c as int - 'a' as int)
    else if 'A' <= c <= 'F' then 10 + (c as int - 'A' as int)
    else -1
  }

  /** The lower-case digit for a nibble, as tcpdump prints it. */
  function HexChar(d: nat): (c: char)
    requires d < 16
  {
    if d < 10 then ('0' as int + d) as char else ('a' as int + d - 10) as char
  }

  /** Printing a nibble then reading it gives it back, in either case. */
  lemma HexNibbleMeans(d: nat)
    ensures d < 16 ==> HexNibble(HexChar(d)) == d
    ensures d < 16 ==> HexNibble(if d < 10 then HexChar(d) else ('A' as int + d - 10) as char) == d
  {
  }

  /** The two bytes a 4-digit hex word stands for, high pair first. */
  function WordBytes(w: string): seq<byte>
    requires |w| >= 4 && IsXDigit(w[0]) && IsXDigit(w[1]) && IsXDigit(w[2]) && IsXDigit(w[3])
  {
    [(HexNibble(w[0]) * 16 + HexNibble(w[1])), (HexNibble(w[2]) * 16 + HexNibble(w[3]))]
  }

  predicate StartsWord(s: string) {
    |s| >= 4 && IsXDigit(s[0]) && IsXDigit(s[1]) && IsXDigit(s[2]) && IsXDigit(s[3])
  }

  /** The rest of the text after the current token (up to white space). */
  function DropToken(s: string): (r: string)
    ensures |r| <= |s| && (|r| == 0 || CIsSpace(r[0]))
    ensures |s| > 0 && !CIsSpace(s[0]) ==> |r| < |s|
  {
    if |s| > 0 && !CIsSpace(s[0]) then DropToken(s[1..]) else s
  }

  /** The scan after the colon: white space is skipped, each 4-digit word
      appends its two bytes while they fit, and any other token is skipped
      whole. */
  function ScanWords(s: string, acc: seq<byte>, cap: nat): seq<byte>
    decreases |s|
  {
    if |s| == 0 then acc
    else
      var (rest, acc') := ScanStep(s, acc, cap);
      ScanWords(rest, acc', cap)
  }

  /** One step of the scan: the text left and the bytes so far. */
  function ScanStep(s: string, acc: seq<byte>, cap: nat): (r: (string, seq<byte>))
    requires |s| > 0
    ensures |r.0| < |s|
  {
    if CIsSpace(s[0]) then (s[1..], acc)
    else if StartsWord(s) then (s[4..], if |acc| + 2 <= cap then acc + WordBytes(s) else acc)
    else (DropToken(s), acc)
  }

  /** `dlm_append_hex_words_from_line`: the bytes of one dump line,
      appended to `acc`; a line without ':' adds nothing. */
  function AppendHexWords(line: string, acc: seq<byte>, cap: nat): seq<byte> {
    if ':' in line then ScanWords(AfterFirst(line, ':'), acc, cap) else acc
  }

  /** The scan only appends, two bytes at a time, and never past `cap`. */
  lemma {:induction false} ScanWordsBounds(s: string, acc: seq<byte>, cap: nat)
    ensures var r := ScanWords(s, acc, cap);
      |acc| <= |r| && r[..|acc|] == acc && (|r| - |acc|) % 2 == 0 && (|acc| <= cap ==> |r| <= cap)
    decreases |s|
  {
    if |s| == 0 {
    } else if CIsSpace(s[0]) {
      ScanWordsBounds(s[1..], acc, cap);
    } else if StartsWord(s) {
      var acc' := if |acc| + 2 <= cap then acc + WordBytes(s) else acc;
      ScanWordsBounds(s[4..], acc', cap);
      assert acc'[..|acc|] == acc;
    } else {
      ScanWordsBounds(DropToken(s), acc, cap);
    }
  }

  /** The words tcpdump prints for bytes, each word preceded by a space. */
  function HexWords(bs: seq<byte>): string
    requires |bs| % 2 == 0
  {
    if |bs| == 0 then ""
    else " " + (Word(bs[0], bs[1]) + HexWords(bs[2..]))
  }

  /** The words printed for some bytes, without the blank before the
      first. */
  function Words(bs: seq<byte>): (r: string)
    requires |bs| % 2 == 0 && 0 < |bs|
    ensures " " + r == HexWords(bs)
  {
    Word(bs[0], bs[1]) + HexWords(bs[2..])
  }

  /** The word tcpdump prints for two bytes. */
  function Word(b0: byte, b1: byte): (w: string)
    ensures |w| == 4 && StartsWord(w)
  {
    [HexChar(b0 / 16), HexChar(b0 % 16), HexChar(b1 / 16), HexChar(b1 % 16)]
  }

  /** A printed word reads back as its two bytes. */
  lemma WordReadsBack(b0: byte, b1: byte)
    ensures WordBytes(Word(b0, b1)) == [b0, b1]
  {
    HexNibbleMeans(b0 / 16);
    HexNibbleMeans(b0 % 16);
    HexNibbleMeans(b1 / 16);
    HexNibbleMeans(b1 % 16);
  }

  /** Reading the words printed for some bytes appends those bytes, and
      the scan goes on with what follows them. */
  lemma {:induction false} ScanHexWords(bs: seq<byte>, rest: string, acc: seq<byte>, cap: nat)
    requires |bs| % 2 == 0 && |acc| + |bs| <= cap
    ensures ScanWords(HexWords(bs) + rest, acc, cap) == ScanWords(rest, acc + bs, cap)
    decreases |bs|
  {
    if |bs| == 0 {
      assert HexWords(bs) + rest == rest && acc + bs == acc;
    } else {
      var w := Word(bs[0], bs[1]);
      WordReadsBack(bs[0], bs[1]);
      var tail := HexWords(bs[2..]) + rest;
      assert HexWords(bs) + rest == " " + w + tail;
      ScanBlankWord(w, tail, acc, cap);
      assert [bs[0], bs[1]] == bs[..2];
      ScanHexWords(bs[2..], rest, acc + bs[..2], cap);
      Regroup(acc, bs[..2], bs[2..]);
      assert bs[..2] + bs[2..] == bs;
    }
  }

  /** A blank and a word: the scan steps over both and takes the word's
      two bytes. */
  lemma ScanBlankWord(w: string, tail: string, acc: seq<byte>, cap: nat)
    requires |w| == 4 && StartsWord(w) && |acc| + 2 <= cap
    ensures ScanWords(" " + w + tail, acc, cap) == ScanWords(tail, acc + WordBytes(w), cap)
  {
    var s := " " + w + tail;
    assert s[0] == ' ' && s[1..] == w + tail;
    StepOverWord(w, tail, acc, cap);
  }

  lemma ScanOverBlank(s: string, acc: seq<byte>, cap: nat)
    ensures ScanWords(" " + s, acc, cap) == ScanWords(s, acc, cap)
  {
    assert (" " + s)[1..] == s;
  }

  /** A step over a word moves past it and appends its two bytes. */
  lemma StepOverWord(w: string, tail: string, acc: seq<byte>, cap: nat)
    requires |w| == 4 && StartsWord(w)
    ensures ScanStep(w + tail, acc, cap) == (tail, if |acc| + 2 <= cap then acc + WordBytes(w) else acc)
  {
    var s := w + tail;
    assert s[..4] == w && s[4..] == tail;
    assert s[0] == w[0] && s[1] == w[1] && s[2] == w[2] && s[3] == w[3];
  }

  /** The text after the first colon of a line whose prefix has none. */
  lemma AfterColon(offset: string, rest: string)
    requires ':' !in offset
    ensures ':' in offset + ":" + rest && AfterFirst(offset + ":" + rest, ':') == rest
  {
    var line := offset + ":" + rest;
    IndexOfAfter(offset, ':', rest);
    assert line[|offset|] == ':';
    assert line[|offset| + 1..] == rest;
  }

  /** A dump line "0x0000:" followed by the words reads back as its bytes. */
  lemma DumpLineReadsBack(offset: string, bs: seq<byte>)
    requires ':' !in offset && |bs| % 2 == 0 && |bs| <= PacketCap
    ensures AppendHexWords(offset + ":" + HexWords(bs), [], PacketCap) == bs
  {
    AfterColon(offset, HexWords(bs));
    ScanHexWords(bs, "", [], PacketCap);
    assert HexWords(bs) + "" == HexWords(bs);
  }

  /** A `tcpdump -X` line: the offset, the words, two blanks and the
      printable column. */
  function DumpLine(offset: string, bs: seq<byte>, ascii: string): string
    requires |bs| % 2 == 0
  {
    offset + ":" + (" " + (HexWords(bs) + ("  " + ascii)))
  }

  /** The line's text after the colon. */
  lemma DumpLineAfterColon(offset: string, bs: seq<byte>, ascii: string)
    requires ':' !in offset && |bs| % 2 == 0
    ensures ':' in DumpLine(offset, bs, ascii)
    ensures AfterFirst(DumpLine(offset, bs, ascii), ':') == " " + (HexWords(bs) + ("  " + ascii))
  {
    AfterColon(offset, " " + (HexWords(bs) + ("  " + ascii)));
  }

  /** Despite its aim of reading only the words, the scan also reads a
      printable column that looks like a word: bytes "abcd" print as
      "6162 6364  abcd" and read back as six bytes. */
  lemma AsciiColumnIsRead(offset: string, bs: seq<byte>, ascii: string)
    requires ':' !in offset && |bs| % 2 == 0 && |bs| + 2 <= PacketCap
    requires |ascii| == 4 && StartsWord(ascii)
    ensures AppendHexWords(DumpLine(offset, bs, ascii), [], PacketCap) == bs + WordBytes(ascii)
  {
    DumpLineAfterColon(offset, bs, ascii);
    ScanOverBlank(HexWords(bs) + ("  " + ascii), [], PacketCap);
    ScanHexWords(bs, "  " + ascii, [], PacketCap);
    assert [] + bs == bs;
    ScanColumn(bs, ascii);
  }

  lemma ScanColumn(acc: seq<byte>, ascii: string)
    requires |acc| + 2 <= PacketCap && |ascii| == 4 && StartsWord(ascii)
    ensures ScanWords("  " + ascii, acc, PacketCap) == acc + WordBytes(ascii)
  {
    TwoBlanks(ascii);
    ScanOverBlank(" " + ascii, acc, PacketCap);
    ScanOverBlank(ascii, acc, PacketCap);
    StepOverWord(ascii, "", acc, PacketCap);
    assert ascii + "" == ascii;
  }

  lemma TwoBlanks(x: string)
    ensures "  " + x == " " + (" " + x)
  {
  }

  lemma AfterBlank(t: string)
    ensures (" " + t)[1..] == t
  {
  }

  /** The text up to the first two blanks in a row: where tcpdump ends the
      words and starts the printable column. */
  function CutAtGap(s: string): string {
    if |s| == 0 || (|s| >= 2 && s[0] == ' ' && s[1] == ' ') then "" else [s[0]] + CutAtGap(s[1..])
  }

  /** The reading the scanner means: only the words before the printable
      column. */
  function AppendHexArea(line: string, acc: seq<byte>, cap: nat): seq<byte> {
    if ':' in line then ScanWords(CutAtGap(StripBlank(AfterFirst(line, ':'))), acc, cap) else acc
  }

  lemma StripTwoBlanks(x: string)
    requires |x| > 0 && IsXDigit(x[0])
    ensures StripBlank(" " + (" " + x)) == x
  {
    AfterBlank(" " + x);
    AfterBlank(x);
    assert StripBlank(x) == x;
  }

  /** Cutting at the gap keeps exactly the printed words. */
  lemma {:induction false} CutAfterWords(bs: seq<byte>, ascii: string)
    requires |bs| % 2 == 0
    ensures CutAtGap(HexWords(bs) + ("  " + ascii)) == HexWords(bs)
    decreases |bs|
  {
    if |bs| == 0 {
      assert HexWords(bs) + ("  " + ascii) == "  " + ascii;
    } else {
      var w := Word(bs[0], bs[1]);
      var h := HexWords(bs[2..]);
      var y := "  " + ascii;
      CutAfterWords(bs[2..], ascii);
      CutAfterWord(w, h + y);
      Regroup(" ", w + h, y);
      Regroup(w, h, y);
      CutAfterBlank(w + (h + y));
    }
  }

  lemma CutAfterBlank(z: string)
    requires |z| > 0 && z[0] != ' '
    ensures CutAtGap(" " + z) == " " + CutAtGap(z)
  {
    AfterBlank(z);
  }

  lemma CutAfterWord(w: string, tail: string)
    requires |w| == 4 && StartsWord(w)
    ensures CutAtGap(w + tail) == w + CutAtGap(tail)
  {
    var s := w + tail;
    assert s[1..][1..][1..][1..] == tail;
    assert CutAtGap(s[1..][1..][1..]) == [w[3]] + CutAtGap(tail);
    assert CutAtGap(s[1..][1..]) == [w[2], w[3]] + CutAtGap(tail);
    assert CutAtGap(s[1..]) == [w[1], w[2], w[3]] + CutAtGap(tail);
    assert w == [w[0], w[1], w[2], w[3]];
  }

  /** The intended reading gives back exactly the bytes of the words,
      whatever the printable column holds. */
  lemma AppendHexAreaIgnoresAscii(offset: string, bs: seq<byte>, ascii: string)
    requires ':' !in offset && |bs| % 2 == 0 && 0 < |bs| <= PacketCap
    ensures AppendHexArea(DumpLine(offset, bs, ascii), [], PacketCap) == bs
  {
    HexAreaOfDumpLine(offset, bs, ascii);
    ScanTrimmedWords(bs);
  }

  /** The words of a dump line, without the blank before the first. */
  lemma HexAreaOfDumpLine(offset: string, bs: seq<byte>, ascii: string)
    requires ':' !in offset && |bs| % 2 == 0 && 0 < |bs|
    ensures CutAtGap(StripBlank(AfterFirst(DumpLine(offset, bs, ascii), ':'))) == Words(bs)
    ensures ':' in DumpLine(offset, bs, ascii)
  {
    DumpLineAfterColon(offset, bs, ascii);
    var w := Word(bs[0], bs[1]);
    var h := HexWords(bs[2..]);
    var y := "  " + ascii;
    Regroup(" ", w + h, y);
    Regroup(w, h, y);
    assert (w + (h + y))[0] == w[0];
    StripTwoBlanks(w + (h + y));
    CutAfterWord(w, h + y);
    CutAfterWords(bs[2..], ascii);
  }

  lemma ScanTrimmedWords(bs: seq<byte>)
    requires |bs| % 2 == 0 && 0 < |bs| <= PacketCap
    ensures ScanWords(Words(bs), [], PacketCap) == bs
  {
    var t := Words(bs);
    ScanOverBlank(t, [], PacketCap);
    assert HexWords(bs) + "" == " " + t;
    ScanHexWords(bs, "", [], PacketCap);
    assert [] + bs == bs;
  }

  /** The steps of the scan, as the loop below takes them. */
  lemma {:induction false} ScanSkipsBlanks(s: string, acc: seq<byte>, cap: nat)
    ensures ScanWords(s, acc, cap) == ScanWords(SkipSpace(s), acc, cap)
    decreases |s|
  {
    if |s| > 0 && CIsSpace(s[0]) {
      ScanSkipsBlanks(s[1..], acc, cap);
    }
  }

  lemma ScanTakesWord(s: string, acc: seq<byte>, cap: nat)
    requires StartsWord(s)
    ensures ScanWords(s, acc, cap) == ScanWords(s[4..], if |acc| + 2 <= cap then acc + WordBytes(s) else acc, cap)
  {
  }

  lemma ScanWordAt(t: string, p: nat, acc: seq<byte>, cap: nat)
    requires p + 4 <= |t| && IsXDigit(t[p]) && IsXDigit(t[p + 1]) && IsXDigit(t[p + 2]) && IsXDigit(t[p + 3])
    ensures ScanWords(t[p..], acc, cap) == ScanWords(t[p + 4..],
      if |acc| + 2 <= cap then acc + [HexNibble(t[p]) * 16 + HexNibble(t[p + 1]), HexNibble(t[p + 2]) * 16 + HexNibble(t[p + 3])] else acc, cap)
  {
    assert t[p..][4..] == t[p + 4..];
    ScanTakesWord(t[p..], acc, cap);
  }

  lemma ScanDropsToken(s: string, acc: seq<byte>, cap: nat)
    requires |s| > 0 && !CIsSpace(s[0]) && !StartsWord(s)
    ensures ScanWords(s, acc, cap) == ScanWords(DropToken(s), acc, cap)
  {
  }

  lemma DropTokenStep(s: string)
    requires |s| > 0 && !CIsSpace(s[0])
    ensures DropToken(s) == DropToken(s[1..])
  {
  }

  /** `dlm_append_hex_words_from_line` over the caller's buffer `out`, of
      which the first `outLen` bytes are used: nothing without a ':'. */
  method AppendHexWordsFromLine(line: string, out: array<byte>, outLen: nat) returns (n: nat)
    requires outLen <= out.Length
    modifies out
    ensures n <= out.Length && out[..n] == AppendHexWords(line, old(out[..outLen]), out.Length)
    ensures forall k :: n <= k < out.Length ==> out[k] == old(out[k])
  {
    var colon := IndexOf(line, ':');
    if colon.None? {
      return outLen;
    }
    n := ScanInto(line[colon.value + 1..], out, outLen);
  }

  /** Its scanning loop, from just after the colon. */
  method ScanInto(t: string, out: array<byte>, outLen: nat) returns (n: nat)
    requires outLen <= out.Length
    modifies out
    ensures n <= out.Length && out[..n] == ScanWords(t, old(out[..outLen]), out.Length)
    ensures forall k :: n <= k < out.Length ==> out[k] == old(out[k])
  {
    n := outLen;
    var p := 0;
    while p < |t|
      invariant p <= |t| && outLen <= n <= out.Length
      invariant ScanWords(t[p..], out[..n], out.Length) == ScanWords(t, old(out[..outLen]), out.Length)
      invariant forall k :: n <= k < out.Length ==> out[k] == old(out[k])
      decreases |t| - p
    {
      p, n := ScanToken(t, p, out, n);
    }
  }

  /** One turn of the loop: the blanks, then one word or one other token. */
  method ScanToken(t: string, p: nat, out: array<byte>, n: nat) returns (p': nat, n': nat)
    requires p < |t| && n <= out.Length
    modifies out
    ensures p < p' <= |t| && n <= n' <= out.Length
    ensures ScanWords(t[p'..], out[..n'], out.Length) == ScanWords(t[p..], old(out[..n]), out.Length)
    ensures forall k :: n' <= k < out.Length ==> out[k] == old(out[k])
  {
    n' := n;
    ScanSkipsBlanks(t[p..], out[..n], out.Length);
    p' := SkipBlanks(t, p);
    if p' == |t| {
      assert t[p'..] == SkipSpace(t[p..]);
      return |t|, n;
    }
    if p' + 4 <= |t| && IsXDigit(t[p']) && IsXDigit(t[p' + 1]) && IsXDigit(t[p' + 2]) && IsXDigit(t[p' + 3]) {
      n' := TakeWord(t, p', out, n);
      p' := p' + 4;
    } else {
      ScanDropsToken(t[p'..], out[..n], out.Length);
      p' := SkipToken(t, p');
    }
  }

  /** A word: its two bytes are stored while they fit. */
  method TakeWord(t: string, p: nat, out: array<byte>, n: nat) returns (n': nat)
    requires p + 4 <= |t| && IsXDigit(t[p]) && IsXDigit(t[p + 1]) && IsXDigit(t[p + 2]) && IsXDigit(t[p + 3])
    requires n <= out.Length
    modifies out
    ensures n <= n' <= out.Length
    ensures ScanWords(t[p + 4..], out[..n'], out.Length) == ScanWords(t[p..], old(out[..n]), out.Length)
    ensures forall k :: n' <= k < out.Length ==> out[k] == old(out[k])
  {
    n' := n;
    ScanWordAt(t, p, out[..n], out.Length);
    if n + 2 <= out.Length {
      var b0: byte := HexNibble(t[p]) * 16 + HexNibble(t[p + 1]);
      var b1: byte := HexNibble(t[p + 2]) * 16 + HexNibble(t[p + 3]);
      ghost var before := out[..n];
      out[n] := b0;
      out[n + 1] := b1;
      assert out[..n + 2] == before + [b0, b1];
      n' := n + 2;
    }
  }

  /** `while (*p && isspace(*p)) p++`. */
  method SkipBlanks(t: string, p: nat) returns (q: nat)
    requires p <= |t|
    ensures p <= q <= |t| && t[q..] == SkipSpace(t[p..])
  {
    q := p;
    while q < |t| && CIsSpace(t[q])
      invariant p <= q <= |t| && SkipSpace(t[q..]) == SkipSpace(t[p..])
    {
      assert t[q..][1..] == t[q + 1..];
      q := q + 1;
    }
  }

  /** `while (*p && !isspace(*p)) p++`. */
  method SkipToken(t: string, p: nat) returns (q: nat)
    requires p <= |t|
    ensures p <= q <= |t| && t[q..] == DropToken(t[p..])
    ensures p < |t| && !CIsSpace(t[p]) ==> p < q
  {
    q := p;
    while q < |t| && !CIsSpace(t[q])
      invariant p <= q <= |t| && DropToken(t[q..]) == DropToken(t[p..])
    {
      DropTokenStep(t[q..]);
      assert t[q..][1..] == t[q + 1..];
      q := q + 1;
    }
  }

  // ---------------------------------------------------------- the packet

  /** `dlm_guess_ipv4_offset`: 18 after an 802.1Q tag carrying IPv4, 14
      after an Ethernet header carrying IPv4, otherwise 0. */
  function GuessIpv4Offset(pkt: seq<byte>): (off: nat)
    ensures off == 0 || off == 14 || off == 18
    ensures off == 18 <==> |pkt| >= 18 && pkt[12] == 0x81 && pkt[13] == 0x00 && pkt[16] == 0x08 && pkt[17] == 0x00
    ensures off == 14 <==> (!(|pkt| >= 18 && pkt[12] == 0x81 && pkt[13] == 0x00 && pkt[16] == 0x08 && pkt[17] == 0x00)
                            && |pkt| >= 14 && pkt[12] == 0x08 && pkt[13] == 0x00)
  {
    if |pkt| >= 18 && pkt[12] == 0x81 && pkt[13] == 0x00 && pkt[16] == 0x08 && pkt[17] == 0x00 then 18
    else if |pkt| >= 14 && pkt[12] == 0x08 && pkt[13] == 0x00 then 14
    else 0
  }

  /** The UDP payload of one captured packet (section 3.1 of RFC 791 and
      RFC 768): version 4, a header of at least 20 bytes, protocol 17, a
      UDP length of at least 8; a payload longer than what was captured is
      cut to it. */
  function UdpPayload(pkt: seq<byte>): (r: Option<seq<byte>>)
    ensures r.Some? ==> |r.value| <= |pkt|
  {
    var off := GuessIpv4Offset(pkt);
    if |pkt| < 20 || off + 20 > |pkt| || pkt[off] / 16 != 4 then None
    else
      var hlen := pkt[off] % 16 * 4;
      if hlen < 20 || off + hlen + 8 > |pkt| || pkt[off + 9] != 17 then None
      else
        var udp := off + hlen;
        var ulen := pkt[udp + 4] as int * 256 + pkt[udp + 5] as int;
        if ulen < 8 then None
        else
          var start := udp + 8;
          var len := if start + (ulen - 8) > |pkt| then |pkt| - start else ulen - 8;
          Some(pkt[start..start + len])
  }

  /** An Ethernet frame carrying an IPv4 header without options (`0x45`,
      protocol 17 at byte 9) and a UDP datagram whose length field counts
      the payload. */
  function UdpFrame(macs: seq<byte>, ip: seq<byte>, ports: seq<byte>, payload: seq<byte>): seq<byte>
    requires |macs| == 12 && |ip| == 20 && |ports| == 4 && |payload| + 8 < 0x1_0000
  {
    var ulen := |payload| + 8;
    macs + [0x08, 0x00] + ip + ports + [(ulen / 256), (ulen % 256)] + [0x00, 0x00] + payload
  }

  /** The payload a well-formed frame carries is exactly what is read back. */
  lemma UdpFrameReadsBack(macs: seq<byte>, ip: seq<byte>, ports: seq<byte>, payload: seq<byte>)
    requires |macs| == 12 && |ip| == 20 && |ports| == 4 && |payload| + 8 < 0x1_0000
    requires ip[0] == 0x45 && ip[9] == 17
    ensures UdpPayload(UdpFrame(macs, ip, ports, payload)) == Some(payload)
  {
    var pkt := UdpFrame(macs, ip, ports, payload);
    assert pkt[12] == 0x08 && pkt[13] == 0x00;
    assert GuessIpv4Offset(pkt) == 14;
    assert pkt[14] == 0x45 && pkt[14 + 9] == 17;
    var ulen := |payload| + 8;
    assert pkt[38] == (ulen / 256) && pkt[39] == (ulen % 256);
    assert pkt[38] as int * 256 + pkt[39] as int == ulen;
    assert pkt[42..42 + |payload|] == payload;
  }

  /** A capture shorter than its UDP length keeps what was captured. */
  lemma TruncatedCaptureIsCut(pkt: seq<byte>)
    requires UdpPayload(pkt).Some?
    ensures var r := UdpPayload(pkt).value; var off := GuessIpv4Offset(pkt);
      var udp := off + pkt[off] % 16 * 4;
      r == pkt[udp + 8..udp + 8 + |r|] && |r| <= pkt[udp + 4] as int * 256 + pkt[udp + 5] as int - 8
  {
  }

  // ------------------------------------------------------ the dump reader

  /** A packet header line of `tcpdump` output. */
  predicate IsHeader(l: string) {
    IsSubstring(" IP ", l) && IsSubstring(" UDP", l) && IsSubstring("length", l)
  }

  /** The line without its leading spaces and tabs. */
  function StripBlank(l: string): (r: string)
    ensures |r| <= |l|
  {
    if |l| > 0 && (l[0] == ' ' || l[0] == '\t') then StripBlank(l[1..]) else l
  }

  /** The bytes of the "0x" lines following a header. */
  function Collect(lines: seq<string>, j: nat, acc: seq<byte>): seq<byte>
    decreases |lines| - j
  {
    if j >= |lines| then acc
    else
      var t := StripBlank(lines[j]);
      if !IsPrefix("0x", t) then acc else Collect(lines, j + 1, AppendHexWords(t, acc, PacketCap))
  }

  /** The non-empty payloads found after each header line, in order. */
  function PayloadsFrom(lines: seq<string>, i: nat): seq<seq<byte>>
    decreases |lines| - i
  {
    if i >= |lines| then []
    else
      var found := if IsHeader(lines[i]) then UdpPayload(Collect(lines, i + 1, [])) else None;
      (if found.Some? && |found.value| > 0 then [found.value] else []) + PayloadsFrom(lines, i + 1)
  }

  function Payloads(lines: seq<string>): seq<seq<byte>> {
    PayloadsFrom(lines, 0)
  }

  /** One header followed by the dump of a well-formed frame yields that
      frame's payload. */
  lemma OnePacket(header: string, offset: string, macs: seq<byte>, ip: seq<byte>, ports: seq<byte>, payload: seq<byte>)
    requires IsHeader(header) && IsPrefix("0x", offset) && ':' !in offset
    requires |macs| == 12 && |ip| == 20 && |ports| == 4 && |payload| % 2 == 0
    requires 0 < |payload| && |payload| + 8 < 0x1_0000 && ip[0] == 0x45 && ip[9] == 17
    requires |UdpFrame(macs, ip, ports, payload)| <= PacketCap
    ensures Payloads([header, offset + ":" + HexWords(UdpFrame(macs, ip, ports, payload))]) == [payload]
  {
    var pkt := UdpFrame(macs, ip, ports, payload);
    var dump := offset + ":" + HexWords(pkt);
    var lines := [header, dump];
    CollectOneLine(lines, offset, pkt);
    UdpFrameReadsBack(macs, ip, ports, payload);
    assert PayloadsFrom(lines, 2) == [];
    assert Collect(lines, 2, []) == [];
    assert PayloadsFrom(lines, 1) == [];
  }

  lemma CollectOneLine(lines: seq<string>, offset: string, pkt: seq<byte>)
    requires |pkt| % 2 == 0 && |pkt| <= PacketCap && IsPrefix("0x", offset) && ':' !in offset
    requires |lines| == 2 && lines[1] == offset + ":" + HexWords(pkt)
    ensures Collect(lines, 1, []) == pkt
  {
    var dump := lines[1];
    FirstDumpLine(offset, pkt);
    assert Collect(lines, 2, pkt) == pkt;
    assert Collect(lines, 1, []) == Collect(lines, 2, AppendHexWords(dump, [], PacketCap));
  }

  lemma FirstDumpLine(offset: string, pkt: seq<byte>)
    requires |pkt| % 2 == 0 && |pkt| <= PacketCap && IsPrefix("0x", offset) && ':' !in offset
    ensures var dump := offset + ":" + HexWords(pkt);
      StripBlank(dump) == dump && IsPrefix("0x", dump) && AppendHexWords(dump, [], PacketCap) == pkt
  {
    DumpLineReadsBack(offset, pkt);
    PrefixExtends("0x", offset, ":" + HexWords(pkt));
    Regroup(offset, ":", HexWords(pkt));
    NoLeadingBlank(offset + (":" + HexWords(pkt)));
  }

  lemma PrefixExtends(p: string, a: string, b: string)
    requires IsPrefix(p, a)
    ensures IsPrefix(p, a + b)
  {
    assert (a + b)[..|p|] == a[..|p|];
  }

  lemma NoLeadingBlank(l: string)
    requires IsPrefix("0x", l)
    ensures StripBlank(l) == l
  {
    assert l[0] == l[..2][0];
  }

  /** `dlm_try_parse_udp_payload_from_tcpdump`: every header is followed
      by its "0x" lines, assembled into `pkt`, and its payload is reported. */
  method ParseUdpPayloads(lines: seq<string>) returns (payloads: seq<seq<byte>>)
    ensures payloads == Payloads(lines)
  {
    payloads := [];
    var pkt := new byte[PacketCap];
    var i := 0;
    while i < |lines|
      invariant i <= |lines|
      invariant payloads + PayloadsFrom(lines, i) == Payloads(lines)
    {
      ghost var found: Option<seq<byte>> := None;
      ghost var before := payloads;
      if IsHeader(lines[i]) {
        var pktLen := CollectPacket(lines, i + 1, pkt);
        var f := UdpPayload(pkt[..pktLen]);
        found := f;
        if f.Some? && |f.value| > 0 {
          payloads := payloads + [f.value];
        }
      }
      ghost var here := if found.Some? && |found.value| > 0 then [found.value] else [];
      assert payloads == before + here;
      PayloadsStep(lines, i, found);
      Regroup(before, here, PayloadsFrom(lines, i + 1));
      i := i + 1;
    }
  }

  lemma PayloadsStep(lines: seq<string>, i: nat, found: Option<seq<byte>>)
    requires i < |lines|
    requires found == if IsHeader(lines[i]) then UdpPayload(Collect(lines, i + 1, [])) else None
    ensures PayloadsFrom(lines, i) == (if found.Some? && |found.value| > 0 then [found.value] else []) + PayloadsFrom(lines, i + 1)
  {
  }

  /** The inner loop: the "0x" lines from `from` on, assembled into `pkt`. */
  method CollectPacket(lines: seq<string>, from: nat, pkt: array<byte>) returns (pktLen: nat)
    requires from <= |lines| && pkt.Length == PacketCap
    modifies pkt
    ensures pktLen <= pkt.Length && pkt[..pktLen] == Collect(lines, from, [])
  {
    pktLen := 0;
    var j := from;
    while j < |lines|
      invariant from <= j <= |lines| && pktLen <= pkt.Length
      invariant Collect(lines, j, pkt[..pktLen]) == Collect(lines, from, [])
    {
      var t := StripBlank(lines[j]);
      if !(|t| >= 2 && t[..2] == "0x") {
        break;
      }
      pktLen := AppendHexWordsFromLine(t, pkt, pktLen);
      j := j + 1;
    }
  }

  // ------------------------------------------------------- Link_Resource

  datatype QosRates = QosRates(forwardRate: nat, returnRate: nat, cos: nat)

  /** The fields of a Link_Resource.request the prototypes read. */
  datatype ResourceRequest = ResourceRequest(action: nat, qos: Option<QosRates>, bearerId: Option<nat>)

  /** A Link_Resource.confirm: status and the bearer id when present. */
  datatype Confirm = Confirm(status: nat, bearerId: Option<nat>)

  /** `dlm_handle_link_resource`: a REQUEST allocates with its QoS or with
      FL 1000 / RL `defaultRl` best effort; anything else releases the
      bearer it names. */
  function HandleLinkResource(s: LinkState, maxFl: nat, maxRl: nat, req: ResourceRequest, defaultRl: nat, now: int): (Confirm, LinkState) {
    if req.action == MihProtocol.ActionRequest then
      var q := if req.qos.Some? then req.qos.value else QosRates(DefaultFl, defaultRl, 0);
      var (rc, id, s1) := Allocate(s, maxFl, maxRl, q.forwardRate, q.returnRate, q.cos, now);
      if rc == 0 then (Confirm(MihProtocol.StatusSuccess, Some(id)), s1)
      else (Confirm(MihProtocol.StatusInsufficientResources, None), s1)
    else if req.bearerId.Some? then
      var (rc, s1) := Release(s, req.bearerId.value);
      (Confirm(if rc == 0 then MihProtocol.StatusSuccess else MihProtocol.StatusInvalidBearer, None), s1)
    else (Confirm(MihProtocol.StatusInvalidBearer, None), s)
  }

  /** The confirm reports exactly what the bearer map did, and the map
      stays consistent. */
  lemma HandleLinkResourceMeans(s: LinkState, maxFl: nat, maxRl: nat, req: ResourceRequest, defaultRl: nat, now: int)
    requires Consistent(s)
    ensures var (c, s1) := HandleLinkResource(s, maxFl, maxRl, req, defaultRl, now);
      && Consistent(s1)
      && (req.action == MihProtocol.ActionRequest ==>
            var q := if req.qos.Some? then req.qos.value else QosRates(DefaultFl, defaultRl, 0);
            var a := Allocate(s, maxFl, maxRl, q.forwardRate, q.returnRate, q.cos, now);
            (c.status == MihProtocol.StatusSuccess <==> a.0 == 0)
            && (c.bearerId.Some? <==> a.0 == 0) && (a.0 == 0 ==> c.bearerId == Some(s.nextId)))
      && (req.action != MihProtocol.ActionRequest ==>
            c.bearerId.None?
            && (c.status == MihProtocol.StatusSuccess <==> req.bearerId.Some? && FindActive(s.bearers, req.bearerId.value).Some?)
            && (c.status != MihProtocol.StatusSuccess ==> c.status == MihProtocol.StatusInvalidBearer && s1 == s))
  {
    if req.action == MihProtocol.ActionRequest {
      var q := if req.qos.Some? then req.qos.value else QosRates(DefaultFl, defaultRl, 0);
      AllocateConsistent(s, maxFl, maxRl, q.forwardRate, q.returnRate, q.cos, now);
    } else if req.bearerId.Some? {
      ReleaseConsistent(s, req.bearerId.value);
    }
  }

  /** A request without QoS asks for 1000/200 on SATCOM and 1000/500 on the
      cellular link: with 300 kbps of return capacity left, only SATCOM
      grants it. */
  lemma DefaultReturnRates(maxFl: nat, now: int)
    requires maxFl >= DefaultFl
    ensures var req := ResourceRequest(MihProtocol.ActionRequest, None, None);
      && HandleLinkResource(InitialState(), maxFl, 300, req, SatcomDefaultRl, now).0.status == MihProtocol.StatusSuccess
      && HandleLinkResource(InitialState(), maxFl, 300, req, CellularDefaultRl, now).0.status == MihProtocol.StatusInsufficientResources
  {
    assert FirstInactive(InitialState().bearers) == Some(0) by {
      assert !InitialState().bearers[0].active;
    }
  }

  /** The handler over the prototype's bearer map. */
  method HandleResource(st: DlmState, maxFl: nat, maxRl: nat, req: ResourceRequest, defaultRl: nat, now: int) returns (c: Confirm)
    modifies st, st.bearers
    ensures (c, st.Snapshot()) == HandleLinkResource(old(st.Snapshot()), maxFl, maxRl, req, defaultRl, now)
  {
    if req.action == MihProtocol.ActionRequest {
      var q := if req.qos.Some? then req.qos.value else QosRates(DefaultFl, defaultRl, 0);
      var rc, id := st.AllocateBearer(maxFl, maxRl, q.forwardRate, q.returnRate, q.cos, now);
      if rc == 0 {
        c := Confirm(MihProtocol.StatusSuccess, Some(id));
      } else {
        c := Confirm(MihProtocol.StatusInsufficientResources, None);
      }
    } else if req.bearerId.Some? {
      var rc := st.ReleaseBearer(req.bearerId.value);
      c := Confirm(if rc == 0 then MihProtocol.StatusSuccess else MihProtocol.StatusInvalidBearer, None);
    } else {
      c := Confirm(MihProtocol.StatusInvalidBearer, None);
    }
  }

  // ------------------------------------------------------------ framing

  /** `dlm_send_to_mihf`'s datagram: the 2-byte type in host (little-endian)
      order, then the payload; refused when it would not fit 2048 bytes. */
  function Frame(msgType: nat, data: seq<byte>): Option<seq<byte>>
    requires msgType < 0x1_0000
  {
    if |data| + 2 > FrameCap then None
    else Some([(msgType % 256), (msgType / 256)] + data)
  }

  /** A frame fits exactly when the payload has at most 2046 bytes, and
      the simulator reads back its type and payload. */
  lemma FrameReadsBack(msgType: nat, data: seq<byte>)
    requires msgType < 0x1_0000
    ensures Frame(msgType, data).Some? <==> |data| <= FrameCap - 2
    ensures Frame(msgType, data).Some? ==>
      && MihfSimulator.Route(Frame(msgType, data).value, false) == MihfSimulator.Dispatched(msgType)
      && Frame(msgType, data).value[2..] == data
  {
    if |data| + 2 <= FrameCap {
      var f := Frame(msgType, data).value;
      assert f[0] == msgType % 256 && f[1] == msgType / 256;
    }
  }

  /** The return code: −1 for an oversized payload or a failed send other
      than a missing MIHF socket (ENOENT). */
  function SendResult(msgType: nat, data: seq<byte>, sendFailed: bool, missingSocket: bool): int
    requires msgType < 0x1_0000
  {
    if Frame(msgType, data).None? then -1
    else if sendFailed && !missingSocket then -1
    else 0
  }

  lemma SendResultMeans(msgType: nat, data: seq<byte>, sendFailed: bool, missingSocket: bool)
    requires msgType < 0x1_0000
    ensures SendResult(msgType, data, sendFailed, missingSocket) == 0 <==>
      |data| <= FrameCap - 2 && (!sendFailed || missingSocket)
  {
    FrameReadsBack(msgType, data);
  }
}
