/** The packet splitter `messages` (collectd.py:78-92): one header, then as
    many encoded stats as fit in MAX_PACKET_SIZE bytes, repeated until every
    stat that can fit at all has been placed. */
module Packets {
  import opened Python
  import opened Wire

  /** The groups of parts one after the other. */
  function Flatten(groups: seq<seq<Bytes>>): seq<Bytes> {
    if groups == [] then [] else groups[0] + Flatten(groups[1..])
  }

  lemma {:induction false} FlattenAppend(groups: seq<seq<Bytes>>, g: seq<Bytes>)
    ensures Flatten(groups + [g]) == Flatten(groups) + g
  {
    if groups == [] {
      assert [] + [g] == [g];
      assert Flatten([g]) == g + Flatten([]);
    } else {
      assert (groups + [g])[1..] == groups[1..] + [g];
      FlattenAppend(groups[1..], g);
    }
  }

  /** `[pack(name, count) for name, count in counts.items()]`, where `counts`
      lists the items in the dictionary's iteration order; the first pack that
      raises ends the comprehension. */
  function PackAll(counts: seq<(Bytes, Py)>, enc: DoubleEncoder): (r: Result<seq<Bytes>>)
    ensures r.Ok? <==> forall i :: 0 <= i < |counts| ==> Pack(Name(counts[i].0), counts[i].1, enc).Ok?
    ensures r.Ok? ==> && |r.value| == |counts|
                      && forall i :: 0 <= i < |counts| ==> r.value[i] == Pack(Name(counts[i].0), counts[i].1, enc).value
  {
    if counts == [] then Ok([])
    else
      var part :- Pack(Name(counts[0].0), counts[0].1, enc);
      var rest :- PackAll(counts[1..], enc);
      Ok([part] + rest)
  }

  /** `[p for p in parts if len(start) + len(p) <= MAX_PACKET_SIZE]`. */
  function Fitting(headerLen: nat, parts: seq<Bytes>): (r: seq<Bytes>)
    ensures forall p :: p in r <==> p in parts && headerLen + |p| <= MAX_PACKET_SIZE
    ensures |r| <= |parts|
  {
    if parts == [] then []
    else (if headerLen + |parts[0]| <= MAX_PACKET_SIZE then [parts[0]] else []) + Fitting(headerLen, parts[1..])
  }

  /** The filter keeps the parts it keeps in their order, each as often as
      it occurs: filtering a concatenation filters each half. */
  lemma {:induction false} FittingAppend(headerLen: nat, a: seq<Bytes>, b: seq<Bytes>)
    ensures Fitting(headerLen, a + b) == Fitting(headerLen, a) + Fitting(headerLen, b)
    decreases |a|
  {
    if a == [] {
      assert a + b == b;
    } else {
      assert (a + b)[0] == a[0] && (a + b)[1..] == a[1..] + b;
      FittingAppend(headerLen, a[1..], b);
    }
  }

  /** A single part is kept exactly when it fits. */
  lemma FittingOne(headerLen: nat, p: Bytes)
    ensures Fitting(headerLen, [p]) == if headerLen + |p| <= MAX_PACKET_SIZE then [p] else []
  {
    assert [p][1..] == [];
  }

  /** The variables of the loop in `messages` between two iterations: the
      groups of parts of the packets already emitted, and the parts of the
      packet being filled. */
  datatype Packing = Packing(closed: seq<seq<Bytes>>, open: seq<Bytes>)

  /** The loop of `messages` after it has placed `parts`: a part joins the open
      packet unless that would take it past MAX_PACKET_SIZE; then the open
      packet is emitted and the part starts the next one. */
  function Greedy(headerLen: nat, parts: seq<Bytes>): Packing {
    if parts == [] then Packing([], [])
    else
      var before := Greedy(headerLen, parts[..|parts| - 1]);
      var part := parts[|parts| - 1];
      if headerLen + |Concat(before.open)| + |part| > MAX_PACKET_SIZE then Packing(before.closed + [before.open], [part])
      else Packing(before.closed, before.open + [part])
  }

  /** The groups of parts of all the packets, the last one included. */
  function Groups(headerLen: nat, parts: seq<Bytes>): seq<seq<Bytes>> {
    var packing := Greedy(headerLen, parts);
    packing.closed + [packing.open]
  }

  /** Parts that fit behind one header all together stay in the open packet. */
  lemma {:induction false} GreedyOne(headerLen: nat, parts: seq<Bytes>)
    requires headerLen + |Concat(parts)| <= MAX_PACKET_SIZE
    ensures Greedy(headerLen, parts) == Packing([], parts)
  {
    if parts != [] {
      var pre := parts[..|parts| - 1];
      var part := parts[|parts| - 1];
      assert parts == pre + [part];
      ConcatAppend(pre, part);
      GreedyOne(headerLen, pre);
    }
  }

  /** When the parts before the last fit in one packet and the last does not
      fit beside them, the last one starts a second packet. */
  lemma GreedyTwo(headerLen: nat, pre: seq<Bytes>, last: Bytes)
    requires headerLen + |Concat(pre)| <= MAX_PACKET_SIZE < headerLen + |Concat(pre)| + |last|
    ensures Groups(headerLen, pre + [last]) == [pre, [last]]
  {
    GreedyOne(headerLen, pre);
    var parts := pre + [last];
    assert parts[..|parts| - 1] == pre;
  }

  /** No part is dropped when every part fits behind the header. */
  lemma {:induction false} FittingAll(headerLen: nat, parts: seq<Bytes>)
    requires forall p :: p in parts ==> headerLen + |p| <= MAX_PACKET_SIZE
    ensures Fitting(headerLen, parts) == parts
  {
    if parts != [] {
      assert forall p :: p in parts[1..] ==> p in parts;
      FittingAll(headerLen, parts[1..]);
    }
  }

  /** Each group behind its own copy of the header. */
  function Seal(start: Bytes, groups: seq<seq<Bytes>>): (r: seq<Bytes>)
    ensures |r| == |groups| && forall i :: 0 <= i < |groups| ==> r[i] == start + Concat(groups[i])
  {
    seq(|groups|, i requires 0 <= i < |groups| => start + Concat(groups[i]))
  }

  /** messages(counts, when, host, plugin_inst, plugin_name), as a function. */
  function Packetize(counts: seq<(Bytes, Py)>, when: Py, now: real, host: Bytes, pluginInst: Bytes,
                     pluginName: Bytes, enc: DoubleEncoder): Result<seq<Bytes>>
  {
    var start :- MessageStart(when, now, host, pluginInst, pluginName, enc);
    var parts :- PackAll(counts, enc);
    Ok(Split(start, Fitting(|start|, parts)))
  }

  /** The packets the loop of `messages` emits for the kept parts. */
  function Split(start: Bytes, kept: seq<Bytes>): seq<Bytes> {
    if kept == [] then [] else Seal(start, Groups(|start|, kept))
  }

  lemma FittingFits(headerLen: nat, parts: seq<Bytes>)
    ensures AllFit(headerLen, Fitting(headerLen, parts))
  {
    var kept := Fitting(headerLen, parts);
    forall i | 0 <= i < |kept| ensures headerLen + |kept[i]| <= MAX_PACKET_SIZE {
      assert kept[i] in kept;
    }
  }

  /** Every part fits behind a header of `headerLen` bytes on its own. */
  ghost predicate AllFit(headerLen: nat, parts: seq<Bytes>) {
    forall i :: 0 <= i < |parts| ==> headerLen + |parts[i]| <= MAX_PACKET_SIZE
  }

  /** `groups` splits `parts` without reordering them into non-empty groups
      that each fit behind the header, and no group could have taken the first
      part of the next one. */
  ghost predicate WellPacked(headerLen: nat, parts: seq<Bytes>, groups: seq<seq<Bytes>>) {
    && Flatten(groups) == parts
    && (forall i :: 0 <= i < |groups| ==> groups[i] != [])
    && (forall i :: 0 <= i < |groups| ==> headerLen + |Concat(groups[i])| <= MAX_PACKET_SIZE)
    && (forall i :: 0 <= i < |groups| - 1 ==> headerLen + |Concat(groups[i])| + |groups[i + 1][0]| > MAX_PACKET_SIZE)
  }

  /** The loop of `messages` packs well: what it places is exactly the input,
      in order, and a new packet is begun only when the next part does not
      fit in the open one. */
  lemma {:induction false} GreedyWellPacked(headerLen: nat, parts: seq<Bytes>)
    requires AllFit(headerLen, parts) && parts != []
    ensures WellPacked(headerLen, parts, Groups(headerLen, parts))
  {
    var pre := parts[..|parts| - 1];
    var part := parts[|parts| - 1];
    assert parts == pre + [part];
    var before := Greedy(headerLen, pre);
    if pre == [] {
      assert before == Packing([], []);
      assert Concat([part]) == part + Concat([]);
      assert Groups(headerLen, parts) == [[part]];
      assert Flatten([[part]]) == [part] + Flatten([]);
    } else {
      assert AllFit(headerLen, pre) by {
        forall i | 0 <= i < |pre| ensures headerLen + |pre[i]| <= MAX_PACKET_SIZE {
          assert pre[i] == parts[i];
        }
      }
      GreedyWellPacked(headerLen, pre);
      if headerLen + |Concat(before.open)| + |part| > MAX_PACKET_SIZE {
        PackClose(headerLen, pre, part, before.closed + [before.open]);
        assert Groups(headerLen, parts) == before.closed + [before.open] + [[part]];
      } else {
        PackJoin(headerLen, pre, part, before.closed, before.open);
        assert Groups(headerLen, parts) == before.closed + [before.open + [part]];
      }
    }
  }

  /** Placing a part that does not fit in the open packet: it begins a packet
      of its own and the packing stays good. */
  lemma PackClose(headerLen: nat, pre: seq<Bytes>, part: Bytes, groups: seq<seq<Bytes>>)
    requires WellPacked(headerLen, pre, groups) && groups != []
    requires headerLen + |Concat(groups[|groups| - 1])| + |part| > MAX_PACKET_SIZE
    requires headerLen + |part| <= MAX_PACKET_SIZE
    ensures WellPacked(headerLen, pre + [part], groups + [[part]])
  {
    FlattenAppend(groups, [part]);
    assert Concat([part]) == part + Concat([]);
  }

  /** Placing a part that fits in the open packet: it joins it and the
      packing stays good. */
  lemma PackJoin(headerLen: nat, pre: seq<Bytes>, part: Bytes, closed: seq<seq<Bytes>>, open: seq<Bytes>)
    requires WellPacked(headerLen, pre, closed + [open])
    requires headerLen + |Concat(open)| + |part| <= MAX_PACKET_SIZE
    ensures WellPacked(headerLen, pre + [part], closed + [open + [part]])
  {
    var old_ := closed + [open];
    var groups := closed + [open + [part]];
    FlattenAppend(closed, open);
    FlattenAppend(closed, open + [part]);
    ConcatAppend(open, part);
    assert open != [] by { assert old_[|old_| - 1] == open; }
    assert (open + [part])[0] == open[0];
    forall i | 0 <= i < |groups| ensures groups[i] != [] && headerLen + |Concat(groups[i])| <= MAX_PACKET_SIZE {
      if i < |groups| - 1 {
        assert groups[i] == old_[i];
      }
    }
    forall i | 0 <= i < |groups| - 1
      ensures headerLen + |Concat(groups[i])| + |groups[i + 1][0]| > MAX_PACKET_SIZE
    {
      assert groups[i] == old_[i];
      if i + 1 < |groups| - 1 {
        assert groups[i + 1] == old_[i + 1];
      } else {
        assert groups[i + 1][0] == open[0] == old_[i + 1][0];
      }
    }
  }

  /** Sealing a good packing: every packet is the header and at least one
      part, and no packet is longer than MAX_PACKET_SIZE. */
  lemma SealShape(start: Bytes, kept: seq<Bytes>, groups: seq<seq<Bytes>>)
    requires WellPacked(|start|, kept, groups)
    requires forall p :: p in kept ==> |p| > 0
    ensures forall i :: 0 <= i < |groups| ==>
              && Seal(start, groups)[i][..|start|] == start
              && |start| < |Seal(start, groups)[i]| <= MAX_PACKET_SIZE
  {
    forall i | 0 <= i < |groups|
      ensures Seal(start, groups)[i][..|start|] == start && |start| < |Seal(start, groups)[i]| <= MAX_PACKET_SIZE
    {
      FlattenMember(groups, i, 0);
      assert |Concat(groups[i])| >= |groups[i][0]|;
    }
  }

  /** The packets of a call that did not raise: each is the header followed by
      at least one part and at most MAX_PACKET_SIZE bytes long; taken together
      they carry exactly the parts that fit behind the header on their own, in
      their input order, grouped so that a packet ends only when the next part
      does not fit into it; and there are none when no part fits. */
  lemma PacketizeShape(counts: seq<(Bytes, Py)>, when: Py, now: real, host: Bytes, pluginInst: Bytes,
                       pluginName: Bytes, enc: DoubleEncoder, packets: seq<Bytes>)
    requires Packetize(counts, when, now, host, pluginInst, pluginName, enc) == Ok(packets)
    ensures MessageStart(when, now, host, pluginInst, pluginName, enc).Ok? && PackAll(counts, enc).Ok?
    ensures var start := MessageStart(when, now, host, pluginInst, pluginName, enc).value;
            var kept := Fitting(|start|, PackAll(counts, enc).value);
            && (packets == [] <==> kept == [])
            && (forall i :: 0 <= i < |packets| ==>
                  && |start| < |packets[i]| <= MAX_PACKET_SIZE
                  && packets[i][..|start|] == start)
            && (kept != [] ==> exists groups :: WellPacked(|start|, kept, groups) && packets == Seal(start, groups))
            && Concat(Payloads(|start|, packets)) == Concat(kept)
  {
    var start := MessageStart(when, now, host, pluginInst, pluginName, enc).value;
    var parts := PackAll(counts, enc).value;
    PacketizeIsSplit(counts, when, now, host, pluginInst, pluginName, enc);
    PartsNonEmpty(counts, enc, |start|);
    FittingFits(|start|, parts);
    SplitShape(start, Fitting(|start|, parts), packets);
  }

  /** A call that did not raise returns the packets of the kept parts. */
  lemma PacketizeIsSplit(counts: seq<(Bytes, Py)>, when: Py, now: real, host: Bytes, pluginInst: Bytes,
                         pluginName: Bytes, enc: DoubleEncoder)
    requires Packetize(counts, when, now, host, pluginInst, pluginName, enc).Ok?
    ensures MessageStart(when, now, host, pluginInst, pluginName, enc).Ok? && PackAll(counts, enc).Ok?
    ensures var start := MessageStart(when, now, host, pluginInst, pluginName, enc).value;
            Packetize(counts, when, now, host, pluginInst, pluginName, enc).value
              == Split(start, Fitting(|start|, PackAll(counts, enc).value))
  {
  }

  /** What `messages` does with the kept parts, whatever they are. */
  lemma SplitShape(start: Bytes, kept: seq<Bytes>, packets: seq<Bytes>)
    requires AllFit(|start|, kept)
    requires forall p :: p in kept ==> |p| > 0
    requires packets == Split(start, kept)
    ensures && (packets == [] <==> kept == [])
            && (forall i :: 0 <= i < |packets| ==>
                  && |start| < |packets[i]| <= MAX_PACKET_SIZE
                  && packets[i][..|start|] == start)
            && (kept != [] ==> exists groups :: WellPacked(|start|, kept, groups) && packets == Seal(start, groups))
            && Concat(Payloads(|start|, packets)) == Concat(kept)
  {
    if kept != [] {
      GreedyWellPacked(|start|, kept);
      SealShape(start, kept, Groups(|start|, kept));
      SealPayloads(start, Groups(|start|, kept));
    }
  }

  /** An element of a group is an element of the flattened groups. */
  lemma {:induction false} FlattenMember(groups: seq<seq<Bytes>>, i: nat, j: nat)
    requires i < |groups| && j < |groups[i]|
    ensures groups[i][j] in Flatten(groups)
  {
    if i > 0 {
      FlattenMember(groups[1..], i - 1, j);
    }
  }

  /** Every kept part is an encoded stat, so it is never empty. */
  lemma PartsNonEmpty(counts: seq<(Bytes, Py)>, enc: DoubleEncoder, headerLen: nat)
    requires PackAll(counts, enc).Ok?
    ensures forall p :: p in Fitting(headerLen, PackAll(counts, enc).value) ==> |p| >= 20
  {
    var parts := PackAll(counts, enc).value;
    forall p | p in Fitting(headerLen, parts) ensures |p| >= 20 {
      var j :| 0 <= j < |parts| && parts[j] == p;
      assert Pack(Name(counts[j].0), counts[j].1, enc).Ok?;
    }
  }

  /** Joining every group and then joining the results is joining all parts. */
  lemma {:induction false} ConcatFlatten(groups: seq<seq<Bytes>>)
    ensures Concat(Flatten(groups)) == Concat(seq(|groups|, i requires 0 <= i < |groups| => Concat(groups[i])))
  {
    var joined := seq(|groups|, i requires 0 <= i < |groups| => Concat(groups[i]));
    if groups != [] {
      ConcatFlatten(groups[1..]);
      ConcatJoin(groups[0], Flatten(groups[1..]));
      assert joined[1..] == seq(|groups[1..]|, i requires 0 <= i < |groups[1..]| => Concat(groups[1..][i]));
    }
  }

  /** The packets with their headers cut off. */
  function Payloads(headerLen: nat, packets: seq<Bytes>): (r: seq<Bytes>)
    requires forall i :: 0 <= i < |packets| ==> headerLen <= |packets[i]|
    ensures |r| == |packets| && forall i :: 0 <= i < |packets| ==> packets[i] == packets[i][..headerLen] + r[i]
  {
    seq(|packets|, i requires 0 <= i < |packets| => packets[i][headerLen..])
  }

  /** Cutting the header off every packet and joining what is left gives the
      kept parts, joined in their input order. */
  lemma SealPayloads(start: Bytes, groups: seq<seq<Bytes>>)
    ensures Concat(Payloads(|start|, Seal(start, groups))) == Concat(Flatten(groups))
  {
    var packets := Seal(start, groups);
    ConcatFlatten(groups);
    assert Payloads(|start|, packets) == seq(|groups|, i requires 0 <= i < |groups| => Concat(groups[i])) by {
      forall i | 0 <= i < |groups| ensures Payloads(|start|, packets)[i] == Concat(groups[i]) {
        assert packets[i] == start + Concat(groups[i]);
      }
    }
  }

  lemma SealAppend(start: Bytes, groups: seq<seq<Bytes>>, g: seq<Bytes>)
    ensures Seal(start, groups + [g]) == Seal(start, groups) + [start + Concat(g)]
  {
    var lhs := Seal(start, groups + [g]);
    var rhs := Seal(start, groups) + [start + Concat(g)];
    assert |lhs| == |rhs|;
    forall i | 0 <= i < |lhs| ensures lhs[i] == rhs[i] {
      if i < |groups| {
        assert (groups + [g])[i] == groups[i];
      }
    }
  }

  /** messages: the header, the encoded stats that fit, and the loop that
      fills packets one after the other. */
  method Messages(counts: seq<(Bytes, Py)>, when: Py, now: real, host: Bytes, pluginInst: Bytes,
                  pluginName: Bytes, enc: DoubleEncoder) returns (r: Result<seq<Bytes>>)
    ensures r == Packetize(counts, when, now, host, pluginInst, pluginName, enc)
  {
    var packets: seq<Bytes> := [];
    var start :- MessageStart(when, now, host, pluginInst, pluginName, enc);
    var parts :- PackAll(counts, enc);
    parts := Fitting(|start|, parts);
    if parts != [] {
      packets := Fill(start, parts);
    }
    return Ok(packets);
  }

  /** The loop of `messages` over a non-empty list of kept parts. */
  method Fill(start: Bytes, parts: seq<Bytes>) returns (packets: seq<Bytes>)
    requires parts != []
    ensures packets == Seal(start, Groups(|start|, parts))
  {
    packets := [];
    var curr, currLen := [start], |start|;
    ghost var closed: seq<seq<Bytes>>, open: seq<Bytes> := [], [];
    for i := 0 to |parts|
      invariant Greedy(|start|, parts[..i]) == Packing(closed, open)
      invariant packets == Seal(start, closed)
      invariant curr == [start] + open
      invariant currLen == |start| + |Concat(open)|
    {
      var part := parts[i];
      assert parts[..i + 1][..i] == parts[..i];
      JoinCurrent(start, open);
      if currLen + |part| > MAX_PACKET_SIZE {
        SealAppend(start, closed, open);
        packets := packets + [Concat(curr)];
        closed := closed + [open];
        curr, currLen := [start], |start|;
        open := [];
      }
      ConcatAppend(open, part);
      curr := curr + [part];
      currLen := currLen + |part|;
      open := open + [part];
    }
    assert parts[..|parts|] == parts;
    JoinCurrent(start, open);
    SealAppend(start, closed, open);
    packets := packets + [Concat(curr)];
  }

  /** `"".join(curr)` while the loop holds `[start] + open` in `curr`. */
  lemma JoinCurrent(start: Bytes, open: seq<Bytes>)
    ensures Concat([start] + open) == start + Concat(open)
  {
    assert ([start] + open)[1..] == open;
  }
}
