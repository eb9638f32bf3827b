/** How the size of a datagram depends on the length of the last sampled header. */
module SFlowSizes {
  import opened Bytes
  import opened SFlowTypes
  import opened SFlowPrinter

  /** A flow sample whose first record is a sampled header that is not empty. */
  predicate HasHeader(s: Sample)
  {
    s.Sample? && s.kind == Flow && s.records != [] && IsHeader(s.records[0].data)
      && s.records[0].data.items[3].octets != []
  }

  predicate IsHeader(d: Data)
  {
    && d.Typed? && d.kind == 1 && |d.items| == 4
    && d.items[0].Word? && d.items[1].Word? && d.items[2].Word? && d.items[3].Header?
  }

  function HeaderOf(s: Sample): bytes
    requires HasHeader(s)
  {
    s.records[0].data.items[3].octets
  }

  /** The record with another header. */
  function WithHeader(r: Record, octets: bytes): Record
    requires IsHeader(r.data)
  {
    Record(r.dataFormat, r.length,
           Typed(1, [r.data.items[0], r.data.items[1], r.data.items[2], Header(Len(|octets|), octets)]))
  }

  /** The sample with only the first `k` octets of its header. */
  function Shorten(s: Sample, k: nat): Sample
    requires HasHeader(s) && k <= |HeaderOf(s)|
  {
    Sample(s.kind, s.header, s.words, s.count, [WithHeader(s.records[0], HeaderOf(s)[..k])] + s.records[1..])
  }

  function WithLast(p: Packet, s: Sample): Packet
    requires p.samples != []
  {
    p.(samples := p.samples[..|p.samples| - 1] + [s])
  }

  function LastOf(p: Packet): Sample
    requires p.samples != []
  {
    p.samples[|p.samples| - 1]
  }

  predicate Encodes(p: Packet)
  {
    EncodePacket(p).Some?
  }

  function Size(p: Packet): nat
    requires Encodes(p)
  {
    |EncodePacket(p).value|
  }

  /** Sizes of headers after padding never shrink as the header grows. */
  lemma PaddingMonotone(j: nat, k: nat)
    requires j <= k
    ensures j + Pad4(j) <= k + Pad4(k)
  {
  }

  lemma HeaderRecord(r: Record)
    requires IsHeader(r.data)
    ensures var items := r.data.items;
            EncodeData(Flow, r.data)
            == Some(U32(items[0].w) + (U32(items[1].w) + (U32(items[2].w)
                    + ((U32(items[3].length) + (items[3].octets + Zeros(Pad4(items[3].length)))) + []))))
  {
    hide EncodeItem, EncodeItems;
    var shapes := [SWord, SWord, SWord, SHeader];
    var items := r.data.items;
    assert FlowShapes(1) == Some(shapes);
    assert shapes[1..] == [SWord, SWord, SHeader] && shapes[1..][1..] == [SWord, SHeader]
           && shapes[1..][1..][1..] == [SHeader];
    ItemsCons(shapes, items);
    ItemsCons(shapes[1..], items[1..]);
    ItemsCons(shapes[1..][1..], items[1..][1..]);
    ItemsCons(shapes[1..][1..][1..], items[1..][1..][1..]);
    NoItemsLeft(shapes[1..][1..][1..][1..], items[1..][1..][1..][1..]);
    WordItem(items[0].w);
    WordItem(items[1].w);
    WordItem(items[2].w);
    HeaderItem(items[3].length, items[3].octets);
  }

  lemma ItemsCons(shapes: seq<Shape>, items: seq<Item>)
    requires shapes != [] && !shapes[0].SGap? && items != []
    ensures var one, rest := EncodeItem(shapes[0], items[0]), EncodeItems(shapes[1..], items[1..]);
            EncodeItems(shapes, items) == if one.None? || rest.None? then None else Some(one.value + rest.value)
  {
  }

  lemma NoItemsLeft(shapes: seq<Shape>, items: seq<Item>)
    requires shapes == [] && items == []
    ensures EncodeItems(shapes, items) == Some([])
  {
  }

  lemma WordItem(w: u32)
    ensures EncodeItem(SWord, Word(w)) == Some(U32(w))
  {
  }

  lemma HeaderItem(n: u32, b: bytes)
    ensures EncodeItem(SHeader, Header(n, b)) == Some(U32(n) + (b + Zeros(Pad4(n))))
  {
  }

  lemma PadOfLen(n: nat)
    ensures Pad4(Len(n)) == Pad4(n)
  {
    Mod4(n / 0x1_0000_0000 * 0x4000_0000, Len(n));
  }

  lemma Mod4(x: int, r: int)
    ensures (4 * x + r) % 4 == r % 4
  {
  }

  /** Replacing the header keeps the record encodable and makes its size depend on the header's length only. */
  lemma RecordSize(r: Record, octets: bytes)
    requires IsHeader(r.data)
    ensures EncodeRecord(Flow, r).Some? && EncodeRecord(Flow, WithHeader(r, octets)).Some?
    ensures |EncodeRecord(Flow, WithHeader(r, octets)).value| == 24 + |octets| + Pad4(|octets|)
  {
    hide EncodeData, U32, Pad4, Zeros;
    HeaderRecord(r);
    HeaderRecord(WithHeader(r, octets));
    PadOfLen(|octets|);
  }

  lemma RecordsCons(kind: SampleKind, r: Record, rest: seq<Record>)
    ensures var one, more := EncodeRecord(kind, r), EncodeRecords(kind, rest);
            EncodeRecords(kind, [r] + rest) == if one.None? || more.None? then None else Some(one.value + more.value)
  {
    assert ([r] + rest)[1..] == rest;
  }

  lemma RecordsSize(s: Sample, k: nat)
    requires HasHeader(s) && k <= |HeaderOf(s)|
    ensures var base, cut := EncodeRecords(Flow, Shorten(s, 0).records), EncodeRecords(Flow, Shorten(s, k).records);
            && (EncodeRecords(Flow, s.records).Some? <==> cut.Some?) && (base.Some? <==> cut.Some?)
            && (cut.Some? ==> |cut.value| == |base.value| + k + Pad4(k))
  {
    hide EncodeRecord, EncodeRecords, Pad4;
    var rest, h := s.records[1..], HeaderOf(s);
    assert s.records == [s.records[0]] + rest;
    RecordsCons(Flow, s.records[0], rest);
    RecordsCons(Flow, WithHeader(s.records[0], h[..0]), rest);
    RecordsCons(Flow, WithHeader(s.records[0], h[..k]), rest);
    RecordSize(s.records[0], h[..k]);
    RecordSize(s.records[0], h[..0]);
    NoPadding();
  }

  lemma NoPadding()
    ensures Pad4(0) == 0
  {
  }

  /** The sample's body around its records. */
  lemma BodySize(s: Sample, t: Sample)
    requires s.Sample? && t.Sample? && t == s.(records := t.records) && |t.records| == |s.records| && s.kind == Flow
    requires EncodeRecords(Flow, s.records).Some? <==> EncodeRecords(Flow, t.records).Some?
    ensures EncodeSample(s).Some? <==> EncodeSample(t).Some?
    ensures EncodeSample(s).Some? ==>
              && EncodeRecords(Flow, s.records).Some?
              && |EncodeSample(t).value| - |EncodeRecords(Flow, t.records).value|
                 == |EncodeSample(s).value| - |EncodeRecords(Flow, s.records).value|
  {
    hide EncodeRecords, U32, WordBytes, Filled, EncodeSource, FormatFits;
  }

  lemma SampleSize(s: Sample, k: nat)
    requires HasHeader(s) && k <= |HeaderOf(s)|
    ensures EncodeSample(s).Some? <==> EncodeSample(Shorten(s, k)).Some?
    ensures EncodeSample(s).Some? ==>
              EncodeSample(Shorten(s, 0)).Some?
                && |EncodeSample(Shorten(s, k)).value| == |EncodeSample(Shorten(s, 0)).value| + k + Pad4(k)
  {
    hide EncodeRecords, EncodeSample, WithHeader, Pad4;
    RecordsSize(s, k);
    RecordsSize(s, 0);
    BodySize(s, Shorten(s, k));
    BodySize(s, Shorten(s, 0));
  }

  lemma {:induction false} SamplesAppend(a: seq<Sample>, s: Sample)
    ensures EncodeSamples(a + [s]).Some? <==> EncodeSamples(a).Some? && EncodeSample(s).Some?
    ensures EncodeSamples(a + [s]).Some? ==>
              EncodeSamples(a + [s]).value == EncodeSamples(a).value + EncodeSample(s).value
  {
    hide EncodeSample;
    if a == [] {
      assert a + [s] == [s] && [s][1..] == [];
      if EncodeSample(s).Some? { Empty(EncodeSample(s).value); }
    } else {
      assert (a + [s])[1..] == a[1..] + [s];
      SamplesAppend(a[1..], s);
      if EncodeSamples(a + [s]).Some? {
        Assoc(EncodeSample(a[0]).value, EncodeSamples(a[1..]).value, EncodeSample(s).value);
      }
    }
  }

  lemma PacketSize(p: Packet, s: Sample, t: Sample)
    requires p.samples != [] && (EncodeSample(s).Some? <==> EncodeSample(t).Some?)
    ensures Encodes(WithLast(p, s)) <==> Encodes(WithLast(p, t))
    ensures Encodes(WithLast(p, s)) ==>
              && EncodeSample(s).Some?
              && Size(WithLast(p, t)) - |EncodeSample(t).value| == Size(WithLast(p, s)) - |EncodeSample(s).value|
  {
    hide EncodeSample, EncodeSamples, AgentVersion, Filled, WordBytes, U32;
    var front := p.samples[..|p.samples| - 1];
    SamplesAppend(front, s);
    SamplesAppend(front, t);
    HeadSize(p, s, t);
  }

  lemma HeadSize(p: Packet, s: Sample, t: Sample)
    requires p.samples != []
    ensures AgentVersion(WithLast(p, s)) == AgentVersion(WithLast(p, t))
    ensures forall v, n :: EncodeHead(WithLast(p, s), v, n) == EncodeHead(WithLast(p, t), v, n)
  {
  }

  /** Cutting the last header: the packet stays encodable, and its size grows with the padded length kept. */
  lemma CutSize(p: Packet, k: nat)
    requires p.samples != [] && HasHeader(LastOf(p)) && k <= |HeaderOf(LastOf(p))| && Encodes(p)
    ensures Encodes(WithLast(p, Shorten(LastOf(p), k))) && Encodes(WithLast(p, Shorten(LastOf(p), 0)))
    ensures Size(WithLast(p, Shorten(LastOf(p), k))) == Size(WithLast(p, Shorten(LastOf(p), 0))) + k + Pad4(k)
  {
    hide EncodeSample, EncodePacket, Shorten, Pad4, Size, Encodes;
    var s := LastOf(p);
    assert WithLast(p, s) == p by { assert p.samples == p.samples[..|p.samples| - 1] + [s]; }
    SampleSize(s, k);
    SampleSize(s, 0);
    PacketSize(p, s, Shorten(s, k));
    PacketSize(p, s, Shorten(s, 0));
  }
}
