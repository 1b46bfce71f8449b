/** The MIHF simulator's console side: the ring of received-message
    summaries held back while the operator is typing, the guard on
    incoming datagrams, and the DLM index read from a command line.
    Texts are byte strings, one character per byte. */
module MihfSimulator {
  import opened Text
  import opened CString
  import opened Bytes

  const QueueCap: nat := 64
  /** `char text[512]` keeps 511 bytes and the NUL. */
  const TextCap: nat := 511
  /** The ring keeps one slot free: at most 63 messages. */
  const MaxQueued: nat := QueueCap - 1
  /** `char numbuf[16]` keeps at most 15 digits. */
  const MaxDigits: nat := 15
  /** Three DLM socket paths. */
  const DlmCount: nat := 3

  // ------------------------------------------------------------- the ring

  /** The last `MaxQueued` entries of `xs`. */
  function Keep(xs: seq<string>): (r: seq<string>)
    ensures |r| <= MaxQueued
  {
    if |xs| <= MaxQueued then xs else xs[|xs| - MaxQueued..]
  }

  /** `enqueue_msg` on the queued texts, oldest first. */
  function Pushed(c: seq<string>, s: string): seq<string> {
    (if |c| == MaxQueued then c[1..] else c) + [Bounded(s, TextCap)]
  }

  function PushAll(c: seq<string>, ms: seq<string>): seq<string> {
    if |ms| == 0 then c else Pushed(PushAll(c, ms[..|ms| - 1]), ms[|ms| - 1])
  }

  function BoundAll(ms: seq<string>): (r: seq<string>)
    ensures |r| == |ms| && forall i :: 0 <= i < |ms| ==> r[i] == Bounded(ms[i], TextCap)
  {
    if |ms| == 0 then [] else BoundAll(ms[..|ms| - 1]) + [Bounded(ms[|ms| - 1], TextCap)]
  }

  /** A push keeps the newest 63 texts. */
  lemma PushedKeeps(c: seq<string>, s: string)
    requires |c| <= MaxQueued
    ensures Pushed(c, s) == Keep(c + [Bounded(s, TextCap)])
  {
  }

  /** Whatever was queued before, the queue holds the newest 63 of all
      texts pushed, each cut to 511 bytes, oldest first. */
  lemma {:induction false} PushAllKeeps(c: seq<string>, ms: seq<string>)
    requires |c| <= MaxQueued
    ensures PushAll(c, ms) == Keep(c + BoundAll(ms))
  {
    if |ms| > 0 {
      var init := ms[..|ms| - 1];
      PushAllKeeps(c, init);
      var b := Bounded(ms[|ms| - 1], TextCap);
      assert BoundAll(ms) == BoundAll(init) + [b];
      var all := c + BoundAll(init);
      assert c + BoundAll(ms) == all + [b];
      PushedKeeps(Keep(all), ms[|ms| - 1]);
      assert Keep(Keep(all) + [b]) == Keep(all + [b]);
    }
  }

  /** `x % 64` for the sums the ring forms. */
  function Wrap(x: nat): (r: nat)
    requires x < 2 * QueueCap
    ensures r == x % QueueCap && r < QueueCap
  {
    if x < QueueCap then x else x - QueueCap
  }

  /** The `size` texts of a ring buffer from `head` on. */
  function Ring(buf: seq<string>, head: nat, size: nat): (r: seq<string>)
    requires |buf| == QueueCap && head < QueueCap && size < QueueCap
    ensures |r| == size
    decreases size
  {
    if size == 0 then [] else [buf[head]] + Ring(buf, Wrap(head + 1), size - 1)
  }

  /** The `i`-th text of the ring sits `i` places after the head. */
  lemma {:induction false} RingAt(buf: seq<string>, head: nat, size: nat, i: nat)
    requires |buf| == QueueCap && head < QueueCap && i < size < QueueCap
    ensures Ring(buf, head, size)[i] == buf[Wrap(head + i)]
    decreases size
  {
    if i > 0 {
      RingAt(buf, Wrap(head + 1), size - 1, i - 1);
      assert Wrap(Wrap(head + 1) + (i - 1)) == Wrap(head + i);
    }
  }

  /** Writing at the tail and advancing it (and the head, when the ring was
      full) drops the oldest text when full and appends `x`. */
  lemma RingPush(buf: seq<string>, head: nat, tail: nat, x: string, skip: nat)
    requires |buf| == QueueCap && head < QueueCap && tail < QueueCap
    requires skip == if Wrap(tail + 1) == head then 1 else 0
    ensures Wrap(tail + QueueCap - head) + 1 - skip < QueueCap
    ensures skip == 1 <==> Wrap(tail + QueueCap - head) == MaxQueued
    ensures Wrap(Wrap(tail + 1) + QueueCap - Wrap(head + skip)) == Wrap(tail + QueueCap - head) + 1 - skip
    ensures Ring(buf[tail := x], Wrap(head + skip), Wrap(tail + QueueCap - head) + 1 - skip)
         == Ring(buf, head, Wrap(tail + QueueCap - head))[skip..] + [x]
  {
    var size := Wrap(tail + QueueCap - head);
    var r := Ring(buf[tail := x], Wrap(head + skip), size + 1 - skip);
    var p := Ring(buf, head, size)[skip..] + [x];
    forall i | 0 <= i < size + 1 - skip ensures r[i] == p[i] {
      RingPushAt(buf, head, tail, x, skip, i);
      RingAt(buf[tail := x], Wrap(head + skip), size + 1 - skip, i);
    }
  }

  /** `enqueue_msg` on the ring: the texts after the write and the moves
      of the tail and, when full, the head are the pushed texts. */
  lemma RingPushed(buf: seq<string>, head: nat, tail: nat, s: string)
    requires |buf| == QueueCap && head < QueueCap && tail < QueueCap
    ensures var h := if Wrap(tail + 1) == head then Wrap(head + 1) else head;
      Ring(buf[tail := Bounded(s, TextCap)], h, Wrap(Wrap(tail + 1) + QueueCap - h))
      == Pushed(Ring(buf, head, Wrap(tail + QueueCap - head)), s)
  {
    var skip := if Wrap(tail + 1) == head then 1 else 0;
    RingPush(buf, head, tail, Bounded(s, TextCap), skip);
  }

  lemma RingPushAt(buf: seq<string>, head: nat, tail: nat, x: string, skip: nat, i: nat)
    requires |buf| == QueueCap && head < QueueCap && tail < QueueCap
    requires skip == if Wrap(tail + 1) == head then 1 else 0
    requires i < Wrap(tail + QueueCap - head) + 1 - skip < QueueCap
    ensures buf[tail := x][Wrap(Wrap(head + skip) + i)]
         == (Ring(buf, head, Wrap(tail + QueueCap - head))[skip..] + [x])[i]
  {
    var size := Wrap(tail + QueueCap - head);
    var r := Ring(buf, head, size);
    if i < size - skip {
      var j := Wrap(Wrap(head + skip) + i);
      assert j == Wrap(head + i + skip) && j != tail;
      RingAt(buf, head, size, i + skip);
      assert (r[skip..] + [x])[i] == r[i + skip];
    } else {
      assert Wrap(Wrap(head + skip) + i) == tail;
      assert (r[skip..] + [x])[i] == x;
    }
  }

  /** The head after a pop from a non-empty ring: one place on, with one
      text fewer between it and the tail. */
  function PopHead(head: nat, tail: nat): (r: nat)
    requires head < QueueCap && tail < QueueCap && head != tail
    ensures r == Wrap(head + 1) && r < QueueCap
    ensures Wrap(tail + QueueCap - r) == Wrap(tail + QueueCap - head) - 1
  {
    Wrap(head + 1)
  }

  /** The ring `g_msg_queue` with `g_msg_head` and `g_msg_tail`. */
  class MessageQueue {
    const slots: array<string>
    var head: int
    var tail: int

    predicate Valid()
      reads this
    {
      slots.Length == QueueCap && 0 <= head < QueueCap && 0 <= tail < QueueCap
    }

    /** The queued texts, oldest (at `head`) first. */
    function Contents(): (r: seq<string>)
      reads this, slots
      requires Valid()
      ensures |r| <= MaxQueued
    {
      Ring(slots[..], head, Wrap(tail + QueueCap - head))
    }

    constructor ()
      ensures Valid() && Contents() == [] && fresh(slots)
    {
      slots := new string[QueueCap](_ => "");
      head, tail := 0, 0;
    }

    /** `enqueue_msg`: when full, the oldest text is dropped first. */
    method Enqueue(s: string)
      requires Valid()
      modifies this, slots
      ensures Valid() && Contents() == Pushed(old(Contents()), s)
    {
      var x := Bounded(s, TextCap);
      var next := Wrap(tail + 1);
      var h := if next == head then Wrap(head + 1) else head;
      ghost var c := Contents();
      ghost var written := slots[..][tail := x];
      RingPushed(slots[..], head, tail, s);
      ghost var after := Ring(written, h, Wrap(next + QueueCap - h));
      assert after == Pushed(c, s);
      slots[tail] := x;
      assert slots[..] == written;
      head, tail := h, next;
      assert Contents() == after;
    }

    /** `flush_queued_msgs`: every queued text, oldest first; the ring is
        left empty. */
    method Flush() returns (out: seq<string>)
      requires Valid()
      modifies this
      ensures Valid() && out == old(Contents()) && Contents() == []
    {
      out := [];
      ghost var rest := Contents();
      while head != tail
        invariant Valid() && tail == old(tail) && rest == Contents()
        invariant out + rest == old(Contents())
        decreases |rest|
      {
        Regroup(out, [rest[0]], rest[1..]);
        out := out + [slots[head]];
        head := PopHead(head, tail);
        rest := rest[1..];
      }
    }
  }

  // ------------------------------------------------------ incoming datagrams

  datatype Outcome = TooShort | Deferred | Dispatched(msgType: nat)

  /** `process_message`'s guard and routing: a datagram needs its 2-byte
      type; while a command is being typed its one-line summary is queued
      instead of handled; otherwise it is handled by its type (host byte
      order, little-endian). */
  function Route(data: seq<byte>, commandActive: bool): Outcome {
    if |data| < 2 then TooShort
    else if commandActive then Deferred
    else Dispatched(data[0] as int + 256 * data[1] as int)
  }

  /** The simulator's receive path over the ring; `summary` is the
      formatted one-line text of the datagram. */
  method ProcessMessage(q: MessageQueue, data: seq<byte>, commandActive: bool, summary: string) returns (o: Outcome)
    requires q.Valid()
    modifies q, q.slots
    ensures o == Route(data, commandActive) && q.Valid()
    ensures q.Contents() == (if o.Deferred? then Pushed(old(q.Contents()), Bounded(summary, TextCap)) else old(q.Contents()))
  {
    if |data| < 2 {
      return TooShort;
    }
    if commandActive {
      q.Enqueue(Bounded(summary, TextCap));
      return Deferred;
    }
    o := Dispatched(data[0] as int + 256 * data[1] as int);
  }

  /** Short datagrams are refused and the type is read from the first two
      bytes. */
  lemma RouteMeans(data: seq<byte>, commandActive: bool)
    ensures Route(data, commandActive).TooShort? <==> |data| < 2
    ensures |data| >= 2 && !commandActive ==> Route(data, commandActive).msgType < 0x1_0000
    ensures Route([0x02, 0x02], false) == Dispatched(0x0202)
  {
  }

  // ------------------------------------------------------------- DLM index

  /** The end of the run of digits starting at `p`. */
  function RunEnd(line: string, p: nat): (e: nat)
    requires p <= |line|
    ensures p <= e <= |line| && (e == |line| || !IsDigit(line[e]))
    ensures forall k :: p <= k < e ==> IsDigit(line[k])
    decreases |line| - p
  {
    if p < |line| && IsDigit(line[p]) then RunEnd(line, p + 1) else p
  }

  /** The first run of digits at or after `from`, at most 15 of them. */
  function NumberRun(line: string, from: nat): (r: string)
    ensures AllDigits(r) && |r| <= MaxDigits
    decreases |line| - from
  {
    if from >= |line| then ""
    else if IsDigit(line[from]) then
      var run := line[from..RunEnd(line, from)];
      assert AllDigits(run);
      Bounded(run, MaxDigits)
    else NumberRun(line, from + 1)
  }

  /** The DLM index a command line names: the number minus one, or −1. */
  function DlmIndex(line: string): int {
    var run := NumberRun(line, 1);
    if run == "" then -1 else CastI32(DigitsValue(run)) - 1
  }

  /** A command selects a DLM only for an index in 0..2. */
  predicate Selects(line: string) {
    0 <= DlmIndex(line) < DlmCount
  }

  /** The digit-scanning loop of `command_thread`. */
  method ParseIndex(line: string) returns (idx: int)
    ensures idx == DlmIndex(line)
  {
    var numbuf := "";
    var i := 1;
    ghost var p := 1;
    while i < |line| && |numbuf| < MaxDigits
      invariant 1 <= p <= i && p + |numbuf| == i && |numbuf| <= MaxDigits
      invariant numbuf == "" ==> NumberRun(line, 1) == NumberRun(line, i)
      invariant numbuf != "" ==> RunAt(line, p, numbuf, i)
    {
      if IsDigit(line[i]) {
        if numbuf == "" {
          p := i;
          RunStarts(line, i);
        } else {
          RunContinues(line, p, numbuf, i);
        }
        numbuf := numbuf + [line[i]];
      } else if numbuf != "" {
        break;
      } else {
        p := i + 1;
      }
      i := i + 1;
    }
    if numbuf == "" {
      return -1;
    }
    RunFound(line, p, numbuf, i);
    idx := CastI32(DigitsValue(numbuf)) - 1;
  }

  /** The scan has copied the digits at `p` up to `i`. */
  ghost predicate RunAt(line: string, p: nat, numbuf: string, i: nat) {
    && p + |numbuf| == i && i <= |line|
    && line[p..i] == numbuf && (forall k :: p <= k < i ==> IsDigit(line[k]))
    && NumberRun(line, 1) == Bounded(line[p..RunEnd(line, p)], MaxDigits)
  }

  lemma RunStarts(line: string, i: nat)
    requires 1 <= i < |line| && IsDigit(line[i]) && NumberRun(line, 1) == NumberRun(line, i)
    ensures RunAt(line, i, [line[i]], i + 1)
  {
    assert line[i..i + 1] == [line[i]];
  }

  lemma RunContinues(line: string, p: nat, numbuf: string, i: nat)
    requires i < |line| && IsDigit(line[i]) && RunAt(line, p, numbuf, i)
    ensures RunAt(line, p, numbuf + [line[i]], i + 1)
  {
    assert line[p..i + 1] == line[p..i] + [line[i]];
  }

  lemma RunFound(line: string, p: nat, numbuf: string, i: nat)
    requires RunAt(line, p, numbuf, i) && |numbuf| <= MaxDigits
    requires i == |line| || |numbuf| == MaxDigits || !IsDigit(line[i])
    ensures numbuf == NumberRun(line, 1)
  {
    var e := RunEnd(line, p);
    assert e >= i;
    if |numbuf| < MaxDigits {
      assert e == i;
    } else {
      assert line[p..e][..MaxDigits] == line[p..i];
    }
  }

  /** "c 2", "c<2>" and "c2" all name the second DLM, index 1; a line
      without digits names none. */
  lemma IndexExamples()
    ensures DlmIndex("c 2") == 1 && DlmIndex("c<2>") == 1 && DlmIndex("c2") == 1
    ensures DlmIndex("c") == -1 && DlmIndex("c x") == -1
  {
    assert NumberRun("c 2", 1) == "2" by {
      assert RunEnd("c 2", 2) == 3;
    }
    assert NumberRun("c<2>", 1) == "2" by {
      assert RunEnd("c<2>", 2) == 3;
    }
    assert NumberRun("c2", 1) == "2" by {
      assert RunEnd("c2", 1) == 2;
    }
  }

  /** A command names a DLM with digits k, 1 <= k <= 3, right after the
      command character: exactly index k − 1 is selected. */
  lemma SmallIndexSelects(cmd: char, k: nat, rest: string)
    requires 1 <= k <= DlmCount && (|rest| == 0 || !IsDigit(rest[0]))
    ensures var line := [cmd] + NatToString(k) + rest; DlmIndex(line) == k - 1 && Selects(line)
  {
    var d := NatToString(k);
    var line := [cmd] + d + rest;
    assert |d| == 1 && IsDigit(d[0]);
    assert line[1] == d[0];
    assert RunEnd(line, 2) == 2 by {
      assert line[2..] == rest;
    }
    assert line[1..2] == d;
    DigitsValueOfNatToString(k);
  }
}
