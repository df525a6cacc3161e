/** The shared scratch buffer: `CWB_open`/`CWB_open0`, writes and `CWB_close`/`CWB_close0` on
    one growing byte array, used in nested fashion all over the runtime. */
module Scratch {
  import opened Wrappers

  type Byte = x: int | 0 <= x < 256

  /** `kBytes`.  The scratch buffer is created with a positive capacity. */
  class Bytes {
    var ubuf: array<Byte>
    var len: nat

    ghost predicate Valid()
      reads this
    {
      0 < ubuf.Length && len <= ubuf.Length
    }

    function Contents(): seq<Byte>
      requires Valid()
      reads this, ubuf
    {
      ubuf[..len]
    }

    constructor (capacity: nat)
      requires capacity > 0
      ensures Valid() && Contents() == [] && fresh(ubuf)
    {
      ubuf := new Byte[capacity](_ => 0);
      len := 0;
    }

    /** `knh_Bytes_expands`: a larger block with the old bytes. */
    method Expand(newsize: nat)
      requires Valid() && newsize >= ubuf.Length
      modifies this
      ensures Valid() && Contents() == old(Contents()) && len == old(len)
      ensures fresh(ubuf) && ubuf.Length == newsize
    {
      var larger := new Byte[newsize](_ => 0);
      forall i | 0 <= i < len {
        larger[i] := ubuf[i];
      }
      ubuf := larger;
    }

    /** `knh_Bytes_putc`. */
    method Putc(ch: Byte)
      requires Valid()
      modifies this, ubuf
      ensures Valid() && Contents() == old(Contents()) + [ch]
      ensures ubuf == old(ubuf) || fresh(ubuf)
    {
      if len == ubuf.Length {
        Expand(ubuf.Length * 2);
      }
      ubuf[len] := ch;
      len := len + 1;
    }

    /** `knh_Bytes_write`. */
    method Write(t: seq<Byte>)
      requires Valid()
      modifies this, ubuf
      ensures Valid() && Contents() == old(Contents()) + t
      ensures ubuf == old(ubuf) || fresh(ubuf)
    {
      if |t| == 0 {
        assert Contents() == old(Contents()) + t;
        return;
      }
      ghost var before := Contents();
      if len + |t| >= ubuf.Length {
        var newsize := ubuf.Length * 2;
        if newsize < len + |t| {
          newsize := GoodSize(len + |t|);
        }
        Expand(newsize);
      }
      forall i | 0 <= i < |t| {
        ubuf[len + i] := t[i];
      }
      len := len + |t|;
      assert ubuf[..len] == before + t;
    }

    /** `knh_Bytes_clear`: cut back to `pos`, zeroing what is given up. */
    method Clear(pos: nat)
      requires Valid()
      modifies this, ubuf
      ensures Valid() && ubuf == old(ubuf)
      ensures Contents() == if pos < old(len) then old(Contents())[..pos] else old(Contents())
    {
      if pos < len {
        forall i | pos <= i < len {
          ubuf[i] := 0;
        }
        len := pos;
      }
    }
  }

  /** `k_goodsize` rounds up to a block size; all that matters here is that it never rounds down. */
  function GoodSize(ss: nat): (r: nat)
    ensures r >= ss
    ensures ss > 0 ==> r > 0
  {
    if ss == 0 then 0 else if ss <= 64 then 64 else if ss > 65536 then ss else RoundUp(64, ss)
  }

  function RoundUp(p: nat, ss: nat): (r: nat)
    requires p > 0
    ensures r >= ss
    decreases if p >= ss then 0 else ss - p
  {
    if p >= ss then p else RoundUp(2 * p, ss)
  }

  /** `CWB_t`, an open writer on the scratch buffer. */
  class Cwb {
    var ba: Bytes?
    var pos: nat

    constructor ()
      ensures ba == null && pos == 0
    {
      ba, pos := null, 0;
    }

    /** `CWB_open`. */
    method Open(bufa: Bytes)
      requires bufa.Valid()
      modifies this
      ensures ba == bufa && pos == bufa.len
    {
      ba := bufa;
      pos := bufa.len;
    }

    /** `CWB_open0`: a zero byte separates the writer from what is already there. */
    method Open0(bufa: Bytes)
      requires bufa.Valid()
      modifies this, bufa, bufa.ubuf
      ensures bufa.Valid() && bufa.Contents() == old(bufa.Contents()) + [0]
      ensures bufa.ubuf == old(bufa.ubuf) || fresh(bufa.ubuf)
      ensures ba == bufa && pos == |old(bufa.Contents())| + 1
    {
      bufa.Putc(0);
      ba := bufa;
      pos := bufa.len;
    }

    /** `CWB_close`. */
    method Close()
      requires ba != null && ba.Valid() && pos <= ba.len
      modifies ba, ba.ubuf
      ensures ba == old(ba) && ba.Valid() && ba.ubuf == old(ba.ubuf)
      ensures ba.Contents() == old(ba.Contents())[..pos]
    {
      ba.Clear(pos);
    }

    /** `CWB_close0`; the requirement is its pair of debug assertions. */
    method Close0()
      requires ba != null && ba.Valid() && 0 < pos <= ba.len && ba.Contents()[pos - 1] == 0
      modifies this, ba, ba.ubuf
      ensures ba == null && pos == 0
      ensures old(ba).Valid() && old(ba).ubuf == old(ba.ubuf)
      ensures old(ba).Contents() == old(ba.Contents())[..old(pos) - 1]
    {
      var cut := pos - 1;
      ba.Clear(cut);
      ba := null;
      pos := 0;
    }

    /** `CWB_write`. */
    method Write(t: seq<Byte>)
      requires ba != null && ba.Valid()
      modifies ba, ba.ubuf
      ensures ba == old(ba) && ba.Valid() && ba.Contents() == old(ba.Contents()) + t
      ensures ba.ubuf == old(ba.ubuf) || fresh(ba.ubuf)
    {
      ba.Write(t);
    }

    /** `CWB_tobytes`. */
    method ToBytes() returns (t: seq<Byte>)
      requires ba != null && ba.Valid() && pos <= ba.len
      ensures t == ba.Contents()[pos..]
    {
      t := ba.ubuf[pos..ba.len];
    }
  }

  // ---------------------------------------------------------------------------
  // Sessions

  /** What the code does to the buffer; writes go through the innermost open writer. */
  datatype Op = Open(zero: bool) | Put(t: seq<Byte>) | Close(zero: bool)

  datatype Writer = Writer(pos: nat, zero: bool)

  datatype Scratch = Scratch(buf: seq<Byte>, writers: seq<Writer>)

  /** `None` stands for a failed debug assertion. */
  function Step(s: Scratch, op: Op): Option<Scratch> {
    match op
    case Open(zero) =>
      var buf := if zero then s.buf + [0] else s.buf;
      Some(Scratch(buf, s.writers + [Writer(|buf|, zero)]))
    case Put(t) => Some(s.(buf := s.buf + t))
    case Close(zero) =>
      if s.writers == [] then None
      else
        var n := |s.writers| - 1;
        var w := s.writers[n];
        if zero then
          if 0 < w.pos <= |s.buf| && s.buf[w.pos - 1] == 0 then Some(Scratch(s.buf[..w.pos - 1], s.writers[..n]))
          else None
        else
          Some(Scratch(if w.pos < |s.buf| then s.buf[..w.pos] else s.buf, s.writers[..n]))
  }

  function Run(s: Scratch, ops: seq<Op>): Option<Scratch>
    decreases |ops|
  {
    if ops == [] then Some(s)
    else
      match Step(s, ops[0])
      case None => None
      case Some(s1) => Run(s1, ops[1..])
  }

  /** Well nested: every close matches the innermost open of the same kind. */
  predicate Nested(ops: seq<Op>, open: seq<bool>)
    decreases |ops|
  {
    if ops == [] then open == []
    else
      match ops[0]
      case Open(zero) => Nested(ops[1..], open + [zero])
      case Put(_) => Nested(ops[1..], open)
      case Close(zero) => open != [] && open[|open| - 1] == zero && Nested(ops[1..], open[..|open| - 1])
  }

  /** The bytes written at nesting level zero, given that `d` inner writers are open now. */
  function Own(ops: seq<Op>, d: nat): seq<Byte>
    decreases |ops|
  {
    if ops == [] then []
    else
      match ops[0]
      case Open(_) => Own(ops[1..], d + 1)
      case Put(t) => (if d == 0 then t else []) + Own(ops[1..], d)
      case Close(_) => Own(ops[1..], if d > 0 then d - 1 else 0)
  }

  /** Where the buffer ends once writer `w` is closed. */
  function Restore(w: Writer): int {
    if w.zero then w.pos - 1 else w.pos
  }

  function Kinds(ws: seq<Writer>): seq<bool> {
    seq(|ws|, i requires 0 <= i < |ws| => ws[i].zero)
  }

  /** Open writers sit one above the other inside the buffer, sentinels intact. */
  predicate Stacked(buf: seq<Byte>, ws: seq<Writer>) {
    && (forall i :: 0 <= i < |ws| ==>
          0 <= Restore(ws[i]) <= ws[i].pos <= |buf| && (ws[i].zero ==> buf[ws[i].pos - 1] == 0))
    && (forall i, j :: 0 <= i < j < |ws| ==> ws[i].pos <= Restore(ws[j]))
  }

  /** The buffer as it will be once all of `inner` is closed. */
  function Kept(buf: seq<Byte>, inner: seq<Writer>): seq<Byte>
    requires Stacked(buf, inner)
  {
    if inner == [] then buf else buf[..Restore(inner[0])]
  }

  lemma StackedPush(buf: seq<Byte>, ws: seq<Writer>, zero: bool)
    requires Stacked(buf, ws)
    ensures var b := if zero then buf + [0] else buf;
            Stacked(b, ws + [Writer(|b|, zero)]) && Kept(b, ws + [Writer(|b|, zero)]) == Kept(buf, ws)
  {
    var b := if zero then buf + [0] else buf;
    var all := ws + [Writer(|b|, zero)];
    forall i | 0 <= i < |all| ensures 0 <= Restore(all[i]) <= all[i].pos <= |b| && (all[i].zero ==> b[all[i].pos - 1] == 0) {
      if i < |ws| {
        assert all[i] == ws[i];
      }
    }
    forall i, j | 0 <= i < j < |all| ensures all[i].pos <= Restore(all[j]) {
      assert all[i] == ws[i];
    }
  }

  lemma StackedPop(buf: seq<Byte>, ws: seq<Writer>)
    requires Stacked(buf, ws) && ws != []
    ensures var n := |ws| - 1;
            Stacked(buf[..Restore(ws[n])], ws[..n]) && Kept(buf[..Restore(ws[n])], ws[..n]) == Kept(buf, ws)
  {
    var n := |ws| - 1;
    var b := buf[..Restore(ws[n])];
    forall i | 0 <= i < n ensures 0 <= Restore(ws[i]) <= ws[i].pos <= |b| && (ws[i].zero ==> b[ws[i].pos - 1] == 0) {
      assert ws[i].pos <= Restore(ws[n]);
    }
    if n > 0 {
      assert b[..Restore(ws[0])] == buf[..Restore(ws[0])];
    }
  }

  /** One operation: the writers stay stacked, and what will be kept plus what will still be
      written at the outer level does not change. */
  lemma StepInner(buf: seq<Byte>, outer: seq<Writer>, inner: seq<Writer>, ops: seq<Op>)
    returns (buf': seq<Byte>, inner': seq<Writer>)
    requires Stacked(buf, inner) && Nested(ops, Kinds(inner)) && ops != []
    ensures Stacked(buf', inner') && Nested(ops[1..], Kinds(inner'))
    ensures Step(Scratch(buf, outer + inner), ops[0]) == Some(Scratch(buf', outer + inner'))
    ensures Kept(buf', inner') + Own(ops[1..], |inner'|) == Kept(buf, inner) + Own(ops, |inner|)
  {
    assert |Kinds(inner)| == |inner|;
    match ops[0]
    case Open(zero) => buf', inner' := OpenInner(buf, outer, inner, zero);
    case Put(t) =>
      buf', inner' := buf + t, inner;
      PutKept(buf, inner, t, Own(ops[1..], |inner|));
    case Close(zero) =>
      var n := |inner| - 1;
      buf', inner' := buf[..Restore(inner[n])], inner[..n];
      StackedPop(buf, inner);
      CloseStep(buf, outer, inner, zero);
      assert Kinds(inner') == Kinds(inner)[..n];
  }

  lemma OpenInner(buf: seq<Byte>, outer: seq<Writer>, inner: seq<Writer>, zero: bool)
    returns (buf': seq<Byte>, inner': seq<Writer>)
    requires Stacked(buf, inner)
    ensures Stacked(buf', inner') && Kinds(inner') == Kinds(inner) + [zero] && |inner'| == |inner| + 1
    ensures Step(Scratch(buf, outer + inner), Open(zero)) == Some(Scratch(buf', outer + inner'))
    ensures Kept(buf', inner') == Kept(buf, inner)
  {
    buf' := if zero then buf + [0] else buf;
    inner' := inner + [Writer(|buf'|, zero)];
    StackedPush(buf, inner, zero);
    assert Kinds(inner') == Kinds(inner) + [zero];
    assert outer + inner' == (outer + inner) + [Writer(|buf'|, zero)];
  }

  /** Any well-nested continuation closes the inner writers and appends exactly the bytes
      written at the outer level; no debug assertion fails on the way. */
  lemma {:induction false} NestedRun(buf: seq<Byte>, outer: seq<Writer>, inner: seq<Writer>, ops: seq<Op>)
    requires Stacked(buf, inner) && Nested(ops, Kinds(inner))
    ensures Run(Scratch(buf, outer + inner), ops) == Some(Scratch(Kept(buf, inner) + Own(ops, |inner|), outer))
    decreases |ops|
  {
    if ops == [] {
      assert |Kinds(inner)| == 0;
      assert outer + inner == outer;
      assert buf + [] == buf;
    } else {
      var buf', inner' := StepInner(buf, outer, inner, ops);
      NestedRun(buf', outer, inner', ops[1..]);
    }
  }

  lemma CloseStep(buf: seq<Byte>, outer: seq<Writer>, inner: seq<Writer>, zero: bool)
    requires Stacked(buf, inner) && inner != [] && inner[|inner| - 1].zero == zero
    ensures var n := |inner| - 1;
            Step(Scratch(buf, outer + inner), Close(zero)) == Some(Scratch(buf[..Restore(inner[n])], outer + inner[..n]))
  {
    var n := |inner| - 1;
    var all := outer + inner;
    assert all[|all| - 1] == inner[n];
    assert all[..|all| - 1] == outer + inner[..n];
    if inner[n].pos == |buf| {
      assert buf[..inner[n].pos] == buf;
    }
  }

  lemma PutKept(buf: seq<Byte>, inner: seq<Writer>, t: seq<Byte>, rest: seq<Byte>)
    requires Stacked(buf, inner)
    ensures Stacked(buf + t, inner)
    ensures Kept(buf + t, inner) + rest == Kept(buf, inner) + ((if |inner| == 0 then t else []) + rest)
  {
    if inner != [] {
      assert (buf + t)[..Restore(inner[0])] == buf[..Restore(inner[0])];
      assert [] + rest == rest;
    } else {
      assert buf + t + rest == buf + (t + rest);
    }
  }

  /** Main result: open a writer, run any well-nested body, and look.  `CWB_tobytes` shows
      exactly the bytes written through this writer, in order, and closing it gives back the
      buffer and the writers from before the open, sentinel included. */
  lemma {:induction false} SessionIsolated(s: Scratch, zero: bool, body: seq<Op>)
    requires Nested(body, [])
    ensures Run(s, [Open(zero)] + body + [Close(zero)]) == Some(s)
    ensures var s1 := Step(s, Open(zero)).value;
            var w := s1.writers[|s.writers|];
            && Run(s1, body) == Some(Scratch(s1.buf + Own(body, 0), s1.writers))
            && w.pos == |s1.buf| && (s1.buf + Own(body, 0))[w.pos..] == Own(body, 0)
  {
    var s1 := Step(s, Open(zero)).value;
    assert s1.writers + [] == s1.writers && Kinds([]) == [];
    NestedRun(s1.buf, s1.writers, [], body);
    OpenClose(s, zero, Own(body, 0));
    RunAppend(s1, body, [Close(zero)]);
    assert ([Open(zero)] + body + [Close(zero)])[1..] == body + [Close(zero)];
    assert [Close(zero)][1..] == [];
  }

  lemma OpenClose(s: Scratch, zero: bool, t: seq<Byte>)
    ensures var s1 := Step(s, Open(zero)).value;
            Step(Scratch(s1.buf + t, s1.writers), Close(zero)) == Some(s)
  {
    var s1 := Step(s, Open(zero)).value;
    assert s1.writers[..|s.writers|] == s.writers;
    assert (s1.buf + t)[..|s.buf|] == s.buf;
    if t == [] {
      assert s1.buf + t == s1.buf;
    }
  }

  lemma {:induction false} RunAppend(s: Scratch, a: seq<Op>, b: seq<Op>)
    ensures Run(s, a + b) == match Run(s, a) case None => None case Some(s1) => Run(s1, b)
    decreases |a|
  {
    if a == [] {
      assert a + b == b;
    } else {
      assert (a + b)[1..] == a[1..] + b;
      match Step(s, a[0])
      case None =>
      case Some(s1) => RunAppend(s1, a[1..], b);
    }
  }

  // ---------------------------------------------------------------------------
  // The objects run the same sessions

  /** Writers opened on one scratch buffer, innermost last. */
  class Session {
    const bufa: Bytes
    var open: seq<Cwb>
    var kinds: seq<bool>

    ghost predicate Valid()
      reads this, bufa, open
    {
      && bufa.Valid() && |kinds| == |open|
      && (forall i :: 0 <= i < |open| ==> open[i].ba == bufa)
      && (forall i, j :: 0 <= i < j < |open| ==> open[i] != open[j])
    }

    function Snapshot(): Scratch
      requires Valid()
      reads this, bufa, bufa.ubuf, open
    {
      Scratch(bufa.Contents(), seq(|open|, i requires 0 <= i < |open| == |kinds| reads this, open => Writer(open[i].pos, kinds[i])))
    }

    constructor (b: Bytes)
      requires b.Valid()
      ensures Valid() && bufa == b && Snapshot() == Scratch(b.Contents(), [])
    {
      bufa, open, kinds := b, [], [];
    }

    method OpenWriter(zero: bool)
      requires Valid()
      modifies this, bufa, bufa.ubuf
      ensures Valid() && Some(Snapshot()) == old(Step(Snapshot(), Open(zero)))
      ensures bufa.ubuf == old(bufa.ubuf) || fresh(bufa.ubuf)
      ensures forall i :: 0 <= i < |open| ==> open[i] in old(open) || fresh(open[i])
    {
      ghost var before := Snapshot();
      var cwb := new Cwb();
      if zero {
        cwb.Open0(bufa);
      } else {
        cwb.Open(bufa);
      }
      open := open + [cwb];
      kinds := kinds + [zero];
      assert Snapshot().writers == before.writers + [Writer(cwb.pos, zero)];
    }

    /** A write through the innermost writer, or directly when none is open. */
    method Write(t: seq<Byte>)
      requires Valid()
      modifies this, bufa, bufa.ubuf
      ensures Valid() && Some(Snapshot()) == old(Step(Snapshot(), Put(t)))
      ensures bufa.ubuf == old(bufa.ubuf) || fresh(bufa.ubuf)
      ensures forall i :: 0 <= i < |open| ==> open[i] in old(open) || fresh(open[i])
    {
      ghost var before := Snapshot();
      if open == [] {
        bufa.Write(t);
      } else {
        open[|open| - 1].Write(t);
      }
      assert Snapshot().writers == before.writers;
    }

    method CloseWriter(zero: bool)
      requires Valid() && Step(Snapshot(), Close(zero)).Some?
      modifies this, bufa, bufa.ubuf, open
      ensures Valid() && Some(Snapshot()) == old(Step(Snapshot(), Close(zero)))
      ensures bufa.ubuf == old(bufa.ubuf) || fresh(bufa.ubuf)
      ensures forall i :: 0 <= i < |open| ==> open[i] in old(open) || fresh(open[i])
    {
      ghost var before := Snapshot();
      var cwb := open[|open| - 1];
      assert before.writers[|open| - 1].pos == cwb.pos;
      open := open[..|open| - 1];
      kinds := kinds[..|kinds| - 1];
      if zero {
        cwb.Close0();
      } else {
        bufa.Clear(cwb.pos);   // CWB_close
      }
      assert Snapshot().writers == before.writers[..|before.writers| - 1];
    }

    method Execute(op: Op)
      requires Valid() && Step(Snapshot(), op).Some?
      modifies this, bufa, bufa.ubuf, open
      ensures Valid() && Some(Snapshot()) == old(Step(Snapshot(), op))
      ensures bufa.ubuf == old(bufa.ubuf) || fresh(bufa.ubuf)
      ensures forall i :: 0 <= i < |open| ==> open[i] in old(open) || fresh(open[i])
    {
      match op
      case Open(zero) => OpenWriter(zero);
      case Put(t) => Write(t);
      case Close(zero) => CloseWriter(zero);
    }

    /** A whole session is the value-level run. */
    method ExecuteAll(ops: seq<Op>)
      requires Valid() && Run(Snapshot(), ops).Some?
      modifies this, bufa, bufa.ubuf, open
      ensures Valid() && Some(Snapshot()) == old(Run(Snapshot(), ops))
      ensures bufa.ubuf == old(bufa.ubuf) || fresh(bufa.ubuf)
      ensures forall i :: 0 <= i < |open| ==> open[i] in old(open) || fresh(open[i])
    {
      assert ops[0..] == ops;
      for i := 0 to |ops|
        invariant Valid() && (bufa.ubuf == old(bufa.ubuf) || fresh(bufa.ubuf))
        invariant forall k :: 0 <= k < |open| ==> open[k] in old(open) || fresh(open[k])
        invariant Run(Snapshot(), ops[i..]) == old(Run(Snapshot(), ops))
      {
        assert ops[i..][1..] == ops[i + 1..];
        Execute(ops[i]);
      }
    }

    /** What the innermost writer would give to its reader now. */
    method Look() returns (t: seq<Byte>)
      requires Valid() && open != [] && Snapshot().writers[|open| - 1].pos <= |Snapshot().buf|
      ensures t == Snapshot().buf[Snapshot().writers[|open| - 1].pos..]
    {
      assert Snapshot().writers[|open| - 1].pos == open[|open| - 1].pos;
      t := open[|open| - 1].ToBytes();
    }

    /** Open, any well-nested body, look, close: what is seen is what was written through this
        writer, and the buffer and the writers are as before. */
    method Isolated(zero: bool, body: seq<Op>) returns (t: seq<Byte>)
      requires Valid() && Nested(body, [])
      modifies this, bufa, bufa.ubuf, open
      ensures Valid() && Snapshot() == old(Snapshot()) && t == Own(body, 0)
    {
      ghost var before := Snapshot();
      SessionIsolated(before, zero, body);
      OpenClose(before, zero, Own(body, 0));
      OpenWriter(zero);
      ExecuteAll(body);
      t := Look();
      CloseWriter(zero);
    }
  }
}
