/**
 The interpreter of LCD register tables (hwinit/jz4740_slcd.c).  A table is a list of 16-bit words:
 delays have the top bit set, commands carry the number of data words after them, and a delay of zero
 ends the table.
 */
module Slcd {

  type Half = n: int | 0 <= n < 0x1_0000

  const DELAY_FLAG: Half := 0x8000
  const RS_COMMAND := 0x8000_0000

  /** One step of an initialisation. */
  datatype Op = Delay(ms: int) | Command(code: int, data: seq<Half>)

  predicate WellFormed(op: Op) {
    match op
    case Delay(ms) => 1 <= ms <= 0x7FFF
    case Command(code, data) => 0 <= code < 0x100 && |data| <= 0x7F
  }

  // ----- tables -----

  /** How a step is written in a table. */
  function Words(op: Op): seq<Half>
    requires WellFormed(op)
  {
    match op
    case Delay(ms) => [0x8000 + ms]
    case Command(code, data) => [|data| * 0x100 + code] + data
  }

  function Table(ops: seq<Op>): seq<Half>
    requires forall i :: 0 <= i < |ops| ==> WellFormed(ops[i])
  {
    if ops == [] then [DELAY_FLAG] else Words(ops[0]) + Table(ops[1..])
  }

  /** What stands at one place of a table: a step, the end, or nothing complete. */
  datatype Entry = Step(op: Op, next: nat) | End | Short

  function ReadEntry(t: seq<Half>, p: nat): (r: Entry)
    ensures r.Step? ==> p < r.next <= |t| && WellFormed(r.op)
    ensures r.End? ==> p < |t|
  {
    if p >= |t| then Short
    else if t[p] == DELAY_FLAG then End
    else if t[p] > DELAY_FLAG then Step(Delay(t[p] - 0x8000), p + 1)
    else
      var n := t[p] / 0x100;
      if p + 1 + n > |t| then Short else Step(Command(t[p] % 0x100, t[p + 1..p + 1 + n]), p + 1 + n)
  }

  datatype Read = Complete(ops: seq<Op>, used: nat) | Overrun

  /** What the words from `p` on say, and where the reading stops. */
  function Parse(t: seq<Half>, p: nat): (r: Read)
    ensures r.Complete? ==> p < r.used <= |t| && forall i :: 0 <= i < |r.ops| ==> WellFormed(r.ops[i])
    decreases |t| - p
  {
    match ReadEntry(t, p)
    case Short => Overrun
    case End => Complete([], p + 1)
    case Step(op, next) =>
      (match Parse(t, next)
       case Overrun => Overrun
       case Complete(ops, used) => Complete([op] + ops, used))
  }

  /** One step is read back as it was written. */
  lemma ReadsBack(op: Op, before: seq<Half>, after: seq<Half>)
    requires WellFormed(op)
    ensures ReadEntry(before + Words(op) + after, |before|) == Step(op, |before| + |Words(op)|)
  {
  }

  /** What is read as a step is how that step is written. */
  lemma WrittenAs(t: seq<Half>, p: nat)
    requires ReadEntry(t, p).Step?
    ensures t[p..ReadEntry(t, p).next] == Words(ReadEntry(t, p).op)
  {
    hide WellFormed;
    var r := ReadEntry(t, p);
    if r.op.Command? {
      var n := t[p] / 0x100;
      HighAndLow(t[p]);
      FirstAndRest(t, p, p + 1 + n);
    }
  }

  /** Without the delay flag, the upper byte is the count of data words. */
  lemma HalfBits(h: Half)
    ensures h < DELAY_FLAG ==> h / 0x100 % 0x80 == h / 0x100 <= 0x7F
  {
  }

  lemma HighAndLow(h: Half)
    ensures h / 0x100 * 0x100 + h % 0x100 == h
  {
  }

  lemma FirstAndRest(t: seq<Half>, p: nat, q: nat)
    requires p < q <= |t|
    ensures t[p..q] == [t[p]] + t[p + 1..q]
  {
  }

  /** Reading a table that was written for some steps gives those steps back, whatever follows the table,
      and stops at its end. */
  lemma {:induction false} TableParses(ops: seq<Op>, before: seq<Half>, after: seq<Half>)
    requires forall i :: 0 <= i < |ops| ==> WellFormed(ops[i])
    ensures Parse(before + Table(ops) + after, |before|) == Complete(ops, |before| + |Table(ops)|)
    decreases |ops|
  {
    hide ReadEntry, Words, WellFormed, Parse;
    if ops == [] {
      EndReads(before, after);
    } else {
      var w, rest := Words(ops[0]), Table(ops[1..]);
      assert Table(ops) == w + rest;
      var t := before + w + (rest + after);
      assert t == before + Table(ops) + after && t == (before + w) + rest + after;
      ReadsBack(ops[0], before, rest + after);
      TableParses(ops[1..], before + w, after);
      ParseStep(t, |before|);
      assert [ops[0]] + ops[1..] == ops;
    }
  }

  lemma EndReads(before: seq<Half>, after: seq<Half>)
    ensures Parse(before + Table([]) + after, |before|) == Complete([], |before| + |Table([])|)
  {
  }

  lemma ParseStep(t: seq<Half>, p: nat)
    requires ReadEntry(t, p).Step? && Parse(t, ReadEntry(t, p).next).Complete?
    ensures Parse(t, p)
         == Complete([ReadEntry(t, p).op] + Parse(t, ReadEntry(t, p).next).ops, Parse(t, ReadEntry(t, p).next).used)
  {
  }

  /** Every table that can be read to its end was written for the steps it gives. */
  lemma {:induction false} ParsedIsTable(t: seq<Half>, p: nat)
    requires p <= |t| && Parse(t, p).Complete?
    ensures Table(Parse(t, p).ops) == t[p..Parse(t, p).used]
    decreases |t| - p
  {
    hide ReadEntry, Words, WellFormed, Parse, Table;
    var entry := ReadEntry(t, p);
    ParseCases(t, p);
    if entry.Step? {
      WrittenAs(t, p);
      ParsedIsTable(t, entry.next);
      var rest := Parse(t, entry.next);
      TableStep(entry.op, rest.ops);
      assert t[p..rest.used] == t[p..entry.next] + t[entry.next..rest.used];
    }
  }

  /** What a table that can be read to its end says, by its first entry. */
  lemma ParseCases(t: seq<Half>, p: nat)
    requires Parse(t, p).Complete?
    ensures match ReadEntry(t, p)
            case Short => false
            case End => Parse(t, p) == Complete([], p + 1) && t[p..p + 1] == Table([])
            case Step(op, next) => Parse(t, next).Complete?
                                   && Parse(t, p) == Complete([op] + Parse(t, next).ops, Parse(t, next).used)
  {
  }

  lemma TableStep(op: Op, ops: seq<Op>)
    requires WellFormed(op) && forall i :: 0 <= i < |ops| ==> WellFormed(ops[i])
    ensures forall i :: 0 <= i < |[op] + ops| ==> WellFormed(([op] + ops)[i])
    ensures Table([op] + ops) == Words(op) + Table(ops)
  {
    hide WellFormed, Words;
    assert ([op] + ops)[1..] == ops;
  }

  // ----- the bus -----

  /** What the display sees: a word on the data register with the level of the RS pin, or a pause. */
  datatype Signal = Bus(rs: bool, value: int) | Pause(ms: int)

  /** Commands go out with RS low, data with RS high. */
  function Signals(op: Op): seq<Signal> {
    match op
    case Delay(ms) => [Pause(ms)]
    case Command(code, data) => [Bus(false, RS_COMMAND + code)] + DataSignals(data, |data|)
  }

  function DataSignals(data: seq<Half>, k: nat): (r: seq<Signal>)
    requires k <= |data|
    ensures |r| == k
  {
    seq(k, i requires 0 <= i < k => Bus(true, data[i]))
  }

  function AllSignals(ops: seq<Op>): seq<Signal> {
    if ops == [] then [] else Signals(ops[0]) + AllSignals(ops[1..])
  }

  // ----- reading the bus -----

  /** How many data words come first. */
  function Leading(s: seq<Signal>): (n: nat)
    ensures n <= |s| && (forall i :: 0 <= i < n ==> s[i].Bus? && s[i].rs) && (n < |s| ==> s[n].Pause? || !s[n].rs)
  {
    if s == [] || s[0].Pause? || !s[0].rs then 0 else 1 + Leading(s[1..])
  }

  function Values(s: seq<Signal>): seq<int>
    requires forall i :: 0 <= i < |s| ==> s[i].Bus?
  {
    seq(|s|, i requires 0 <= i < |s| => s[i].value)
  }

  /** What the display makes of the signals: pauses, and commands with the data words after them. */
  datatype Heard = Paused(ms: int) | Ordered(word: int, data: seq<int>)

  function Hear(s: seq<Signal>): seq<Heard>
    decreases |s|
  {
    if s == [] then []
    else if s[0].Pause? then [Paused(s[0].ms)] + Hear(s[1..])
    else
      var n := Leading(s[1..]);
      [Ordered(s[0].value, Values(s[1..1 + n]))] + Hear(s[1 + n..])
  }

  /** What a step should sound like: commands carry their flag, data words are as they are. */
  function Meant(op: Op): Heard {
    match op
    case Delay(ms) => Paused(ms)
    case Command(code, data) => Ordered(0x8000_0000 + code, seq(|data|, i requires 0 <= i < |data| => data[i]))
  }

  lemma {:induction false} LeadingOf(data: seq<Half>, rest: seq<Signal>)
    requires rest == [] || rest[0].Pause? || !rest[0].rs
    ensures Leading(DataSignals(data, |data|) + rest) == |data|
    decreases |data|
  {
    var s := DataSignals(data, |data|) + rest;
    if data == [] {
      assert s == rest;
    } else {
      assert s[1..] == DataSignals(data[1..], |data| - 1) + rest;
      LeadingOf(data[1..], rest);
    }
  }

  lemma SignalsBegin(ops: seq<Op>)
    ensures var s := AllSignals(ops); s == [] || s[0].Pause? || !s[0].rs
  {
  }

  /** The steps as the display should hear them. */
  function AllMeant(ops: seq<Op>): seq<Heard> {
    if ops == [] then [] else [Meant(ops[0])] + AllMeant(ops[1..])
  }

  /** The display hears exactly the steps, in order: RS is low for commands and high for their data. */
  lemma {:induction false} HeardIsMeant(ops: seq<Op>)
    ensures Hear(AllSignals(ops)) == AllMeant(ops)
    decreases |ops|
  {
    hide Hear, Meant, Signals;
    if ops == [] {
      HearNothing();
    } else {
      SignalsBegin(ops[1..]);
      HeardIsMeant(ops[1..]);
      HeardFirst(ops[0], AllSignals(ops[1..]));
    }
  }

  lemma HearNothing()
    ensures Hear([]) == []
  {
  }

  lemma HearPause(ms: int, rest: seq<Signal>)
    ensures Hear([Pause(ms)] + rest) == [Paused(ms)] + Hear(rest)
  {
    assert ([Pause(ms)] + rest)[1..] == rest;
  }

  lemma HearCommand(word: int, d: seq<Signal>, rest: seq<Signal>)
    requires (forall i :: 0 <= i < |d| ==> d[i].Bus?) && Leading(d + rest) == |d|
    ensures Hear([Bus(false, word)] + d + rest) == [Ordered(word, Values(d))] + Hear(rest)
  {
    hide Leading, Values;
    var s := [Bus(false, word)] + d + rest;
    assert s[1..] == d + rest;
    assert s[1..1 + |d|] == d && s[1 + |d|..] == rest;
  }

  lemma HeardFirst(op: Op, rest: seq<Signal>)
    requires rest == [] || rest[0].Pause? || !rest[0].rs
    ensures Hear(Signals(op) + rest) == [Meant(op)] + Hear(rest)
  {
    hide Hear, Leading;
    match op {
      case Delay(ms) => HearPause(ms, rest);
      case Command(code, data) =>
        var d := DataSignals(data, |data|);
        LeadingOf(data, rest);
        HearCommand(RS_COMMAND + code, d, rest);
        assert Values(d) == seq(|data|, i requires 0 <= i < |data| => data[i]);
    }
  }

  /** A table as the panels have them. */
  lemma PanelTable()
    ensures Parse([0x042a, 0x0000, 0x0000, 0x0001, 0x003f, 0x0136, 0x00e8, 0x0029, 0x8064, 0x002c, 0x8000], 0)
         == Complete([Command(0x2a, [0, 0, 1, 0x3f]), Command(0x36, [0xe8]), Command(0x29, []), Delay(100), Command(0x2c, [])], 11)
  {
    var t := [0x042a, 0x0000, 0x0000, 0x0001, 0x003f, 0x0136, 0x00e8, 0x0029, 0x8064, 0x002c, 0x8000];
    assert ReadEntry(t, 10) == End;
    assert ReadEntry(t, 9) == Step(Command(0x2c, []), 10);
    assert ReadEntry(t, 8) == Step(Delay(100), 9);
    assert ReadEntry(t, 7) == Step(Command(0x29, []), 8);
    assert t[6..7] == [0xe8] && ReadEntry(t, 5) == Step(Command(0x36, [0xe8]), 7);
    assert t[1..5] == [0, 0, 1, 0x3f] && ReadEntry(t, 0) == Step(Command(0x2a, [0, 0, 1, 0x3f]), 5);
    hide ReadEntry;
    assert Parse(t, 10) == Complete([], 11);
    ParseStep(t, 9);
    ParseStep(t, 8);
    ParseStep(t, 7);
    ParseStep(t, 5);
    ParseStep(t, 0);
  }

  class Display {
    var rs: bool                 // the register select pin
    ghost var sent: seq<Signal>

    constructor ()
      ensures sent == []
    {
      rs, sent := true, [];
    }

    method CommandWrite(cmd: int)
      requires 0 <= cmd < 0x1_0000
      modifies this
      ensures rs && sent == old(sent) + [Bus(false, RS_COMMAND + cmd)]
    {
      rs := false;
      sent := sent + [Bus(rs, RS_COMMAND + cmd)];
      rs := true;
    }

    method DataWrite(data: Half)
      modifies this
      ensures rs == old(rs) && sent == old(sent) + [Bus(rs, data)]
    {
      sent := sent + [Bus(rs, data)];
    }

    /** Send `n` data words from `p` on. */
    method SendData(t: array<Half>, p: nat, n: nat) returns (p': nat)
      requires rs && p + n <= t.Length
      modifies this
      ensures rs && p' == p + n && sent == old(sent) + DataSignals(t[p..p + n], n)
    {
      p' := p;
      var left := n;
      ghost var data := t[p..p + n];
      while left != 0
        invariant 0 <= left <= n && p' == p + n - left && rs
        invariant sent == old(sent) + DataSignals(data, n - left)
      {
        left := left - 1;
        DataWrite(t[p']);
        p' := p' + 1;
        assert DataSignals(data, n - left) == DataSignals(data, n - left - 1) + [Bus(true, data[n - left - 1])];
      }
    }

    /** Interpret a table: the signals are those of its steps, and reading stops right behind its end marker. */
    method InitRegs(t: array<Half>) returns (p: nat)
      requires Parse(t[..], 0).Complete?
      modifies this
      ensures p == Parse(t[..], 0).used && sent == old(sent) + AllSignals(Parse(t[..], 0).ops)
    {
      hide *;
      ghost var table := t[..];
      ghost var whole, done := Parse(table, 0), [];
      p := 0;
      SignalsNone();
      RemainsAtStart(table);
      while true
        invariant Remains(table, p, whole, done)
        invariant sent == old(sent) + AllSignals(done)
        decreases t.Length - p
      {
        RemainsStep(table, p, whole, done);
        ghost var entry := ReadEntry(table, p);
        var more;
        more, p := Interpret(t, p);
        if !more {
          break;
        }
        SignalsMore(done, entry.op);
        done := done + [entry.op];
      }
    }

    /** Interpret one entry of a table. */
    method Interpret(t: array<Half>, p: nat) returns (more: bool, p': nat)
      requires !ReadEntry(t[..], p).Short?
      modifies this
      ensures more == ReadEntry(t[..], p).Step?
      ensures more ==> p' == ReadEntry(t[..], p).next && sent == old(sent) + Signals(ReadEntry(t[..], p).op)
      ensures !more ==> p' == p + 1 && sent == old(sent)
    {
      hide DataSignals, WellFormed;
      HalfBits(t[p]);
      var tmp := t[p];
      p' := p + 1;
      if tmp >= 0x8000 {
        var delay := tmp - 0x8000;
        if delay == 0 {
          return false, p';
        }
        sent := sent + [Pause(delay)];
      } else {
        var n := tmp / 0x100 % 0x80;
        assert t[..][p'..p' + n] == t[p'..p' + n];
        CommandWrite(tmp % 0x100);
        p' := SendData(t, p', n);
      }
      more := true;
    }
  }

  /** `done` and what the table says from `p` on make up the whole. */
  ghost predicate Remains(t: seq<Half>, p: nat, whole: Read, done: seq<Op>) {
    Parse(t, p).Complete? && whole == Complete(done + Parse(t, p).ops, Parse(t, p).used)
  }

  lemma RemainsAtStart(t: seq<Half>)
    requires Parse(t, 0).Complete?
    ensures Remains(t, 0, Parse(t, 0), [])
  {
    assert [] + Parse(t, 0).ops == Parse(t, 0).ops;
  }

  lemma RemainsStep(t: seq<Half>, p: nat, whole: Read, done: seq<Op>)
    requires Remains(t, p, whole, done)
    ensures p < |t|
    ensures match ReadEntry(t, p)
            case Short => false
            case End => whole == Complete(done, p + 1)
            case Step(op, next) => p < next && Remains(t, next, whole, done + [op])
  {
    hide ReadEntry;
    var entry := ReadEntry(t, p);
    if entry.Step? {
      assert done + ([entry.op] + Parse(t, entry.next).ops) == done + [entry.op] + Parse(t, entry.next).ops;
    }
  }

  lemma SignalsNone()
    ensures AllSignals([]) == []
  {
  }

  lemma {:induction false} SignalsMore(ops: seq<Op>, op: Op)
    ensures AllSignals(ops + [op]) == AllSignals(ops) + Signals(op)
    decreases |ops|
  {
    hide Signals;
    if ops == [] {
      assert [op][1..] == [] && [] + [op] == [op];
    } else {
      SignalsMore(ops[1..], op);
      assert (ops + [op])[1..] == ops[1..] + [op];
    }
  }

  /** Writing a table for some steps and interpreting it replays exactly those steps. */
  method Replay(d: Display, ops: seq<Op>, after: seq<Half>) returns (p: nat)
    requires forall i :: 0 <= i < |ops| ==> WellFormed(ops[i])
    modifies d
    ensures p == |Table(ops)| && d.sent == old(d.sent) + AllSignals(ops)
  {
    hide Parse, AllSignals, Words, WellFormed, Table;
    TableParses(ops, [], after);
    var ws := Table(ops) + after;
    assert [] + Table(ops) + after == ws;
    var t := new Half[|ws|](i requires 0 <= i < |ws| => ws[i]);
    assert t[..] == ws;
    p := d.InitRegs(t);
  }
}
