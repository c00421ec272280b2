/** The Docker log-frame demultiplexer (src/docker_client.py, `demultiplex`), at byte level. */
module LogStream {
  import opened Common

  type byte = b: int | 0 <= b < 256

  const HEADER: nat := 8

  predicate GoodHeader(s: seq<byte>)
    requires |s| >= HEADER
  {
    s[0] in {0, 1, 2} && s[1] == 0 && s[2] == 0 && s[3] == 0
  }

  /** The payload size a header announces, most significant byte first. */
  function Size(s: seq<byte>): nat
    requires |s| >= HEADER
  {
    s[4] as int * 0x100_0000 + s[5] as int * 0x1_0000 + s[6] as int * 0x100 + s[7] as int
  }

  /** The payload of the first frame, cut where the data ends. */
  function Chunk(s: seq<byte>): seq<byte>
    requires |s| >= HEADER
  {
    if HEADER + Size(s) <= |s| then s[HEADER..HEADER + Size(s)] else s[HEADER..]
  }

  function Remainder(s: seq<byte>): (r: seq<byte>)
    requires |s| >= HEADER
    ensures |r| < |s|
  {
    if HEADER + Size(s) <= |s| then s[HEADER + Size(s)..] else []
  }

  function Prepend(p: seq<byte>, rest: Option<seq<byte>>): Option<seq<byte>> {
    match rest
    case None => None
    case Some(r) => Some(p + r)
  }

  /** The payloads of a framed stream, or `None` as soon as a header is not one. */
  function Payloads(s: seq<byte>): Option<seq<byte>>
    decreases |s|
  {
    if |s| < HEADER then Some([])
    else if !GoodHeader(s) then None
    else
      Prepend(Chunk(s), Payloads(Remainder(s)))
  }

  function Join(chunks: seq<seq<byte>>): seq<byte> {
    if chunks == [] then [] else Join(Front(chunks)) + Last(chunks)
  }

  /** The loop as a function: what it gives with these chunks taken, from `offset` on. */
  function Scan(raw: seq<byte>, chunks: seq<seq<byte>>, offset: nat): Option<seq<byte>>
    decreases if offset <= |raw| then |raw| - offset else 0
  {
    if offset + HEADER > |raw| then Some(Join(chunks))
    else
      var rest := raw[offset..];
      if !GoodHeader(rest) then None else Scan(raw, chunks + [Chunk(rest)], offset + HEADER + Size(rest))
  }

  /** Framed streams give their payloads; anything else passes through as raw terminal output. */
  function Demux(raw: seq<byte>): seq<byte> {
    if |raw| < HEADER then raw
    else
      match Scan(raw, [], 0)
      case None => raw
      case Some(out) => out
  }

  lemma PrependTwice(a: seq<byte>, b: seq<byte>, rest: Option<seq<byte>>)
    ensures Prepend(a, Prepend(b, rest)) == Prepend(a + b, rest)
  {
    if rest.Some? {
      assert a + (b + rest.value) == a + b + rest.value;
    }
  }

  /** From wherever it stands, the loop adds the payloads of the rest; the last frame may reach beyond the data. */
  lemma {:induction false} ScanAddsPayloads(raw: seq<byte>, chunks: seq<seq<byte>>, offset: nat)
    requires offset <= |raw|
    ensures Scan(raw, chunks, offset) == Prepend(Join(chunks), Payloads(raw[offset..]))
    decreases |raw| - offset
  {
    var rest := raw[offset..];
    assert Join(chunks) + [] == Join(chunks);
    if |rest| >= HEADER && GoodHeader(rest) {
      var taken, next := chunks + [Chunk(rest)], offset + HEADER + Size(rest);
      assert Front(taken) == chunks;
      PrependTwice(Join(chunks), Chunk(rest), Payloads(Remainder(rest)));
      if next <= |raw| {
        ScanAddsPayloads(raw, taken, next);
        assert raw[next..] == Remainder(rest);
      } else {
        assert Join(taken) + [] == Join(taken);
      }
    }
  }

  lemma DemuxGivesPayloads(raw: seq<byte>)
    ensures Demux(raw) == if |raw| < HEADER || Payloads(raw).None? then raw else Payloads(raw).value
  {
    ScanAddsPayloads(raw, [], 0);
    assert raw[0..] == raw;
    assert Payloads(raw).Some? ==> [] + Payloads(raw).value == Payloads(raw).value;
  }

  method Demultiplex(raw: seq<byte>) returns (out: seq<byte>)
    ensures out == Demux(raw)
  {
    if raw == [] {
      return [];
    }
    var chunks: seq<seq<byte>> := [];
    var offset: nat := 0;
    while offset + HEADER <= |raw|
      invariant offset > 0 ==> |raw| >= HEADER
      invariant Scan(raw, chunks, offset) == Scan(raw, [], 0)
      decreases |raw| - offset
    {
      var rest := raw[offset..];
      if !GoodHeader(rest) {
        return raw;
      }
      chunks := chunks + [Chunk(rest)];
      offset := offset + HEADER + Size(rest);
    }
    if offset == 0 {
      return raw;
    }
    out := Join(chunks);
  }

  // ---- Framing ---------------------------------------------------------------------------------

  datatype Frame = Frame(stream: byte, payload: seq<byte>)
  {
    ghost predicate Valid() {
      stream <= 2 && |payload| < 0x1_0000_0000
    }
  }

  ghost function Header(f: Frame): (h: seq<byte>)
    requires f.Valid()
    ensures |h| == HEADER
  {
    var high, low := |f.payload| / 0x1_0000, |f.payload| % 0x1_0000;
    [f.stream, 0, 0, 0, high / 0x100, high % 0x100, low / 0x100, low % 0x100]
  }

  ghost predicate AllValid(fs: seq<Frame>) {
    forall f | f in fs :: f.Valid()
  }

  ghost function Encode(fs: seq<Frame>): seq<byte>
    requires AllValid(fs)
  {
    if fs == [] then [] else Header(fs[0]) + fs[0].payload + Encode(fs[1..])
  }

  ghost function Contents(fs: seq<Frame>): seq<byte> {
    if fs == [] then [] else fs[0].payload + Contents(fs[1..])
  }

  lemma HeaderAnnouncesItsPayload(f: Frame, s: seq<byte>)
    requires f.Valid() && |s| >= HEADER && s[..HEADER] == Header(f)
    ensures GoodHeader(s) && Size(s) == |f.payload|
  {
    var h := Header(f);
    assert s[0] == h[0] && s[1] == h[1] && s[2] == h[2] && s[3] == h[3];
    assert s[4] == h[4] && s[5] == h[5] && s[6] == h[6] && s[7] == h[7];
  }

  lemma CutFrame(f: Frame, tail: seq<byte>, t: nat)
    requires f.Valid() && HEADER <= t <= HEADER + |f.payload| + |tail|
    ensures var s, n := (Header(f) + f.payload + tail)[..t], |f.payload|;
            && GoodHeader(s)
            && Chunk(s) == f.payload[..if n <= t - HEADER then n else t - HEADER]
            && Remainder(s) == if n <= t - HEADER then tail[..t - HEADER - n] else []
  {
    var s := (Header(f) + f.payload + tail)[..t];
    assert s[..HEADER] == Header(f);
    HeaderAnnouncesItsPayload(f, s);
  }

  /** What demultiplexing makes of the first frame of a cut stream. */
  lemma CutStep(f: Frame, tail: seq<byte>, t: nat)
    requires f.Valid() && HEADER <= t <= HEADER + |f.payload| + |tail|
    ensures var s, n := (Header(f) + f.payload + tail)[..t], |f.payload|;
            if n <= t - HEADER then
              var rest := Payloads(tail[..t - HEADER - n]);
              Payloads(s) == if rest.None? then None else Some(f.payload + rest.value)
            else
              Payloads(s) == Some(f.payload[..t - HEADER])
  {
    CutFrame(f, tail, t);
    if |f.payload| > t - HEADER {
      assert f.payload[..t - HEADER] + [] == f.payload[..t - HEADER];
    } else {
      assert f.payload[..|f.payload|] == f.payload;
    }
  }

  ghost predicate CutGivesAPrefix(stream: seq<byte>, contents: seq<byte>, t: nat)
    requires t <= |stream|
  {
    var p := Payloads(stream[..t]);
    p.Some? && p.value <= contents && (t == |stream| ==> p.value == contents)
  }

  lemma CutFirstFrame(f: Frame, tail: seq<byte>, contents: seq<byte>, t: nat)
    requires f.Valid() && HEADER <= t <= HEADER + |f.payload| + |tail|
    requires |f.payload| <= t - HEADER ==> CutGivesAPrefix(tail, contents, t - HEADER - |f.payload|)
    ensures CutGivesAPrefix(Header(f) + f.payload + tail, f.payload + contents, t)
  {
    CutStep(f, tail, t);
  }

  /** Cutting an encoded stream anywhere leaves a prefix of the payloads, the whole of them if nothing was cut. */
  lemma {:induction false} CutStream(fs: seq<Frame>, t: nat)
    requires AllValid(fs) && t <= |Encode(fs)|
    ensures CutGivesAPrefix(Encode(fs), Contents(fs), t)
    decreases |fs|
  {
    if fs != [] && t >= HEADER {
      if |fs[0].payload| <= t - HEADER {
        CutStream(fs[1..], t - HEADER - |fs[0].payload|);
      }
      CutFirstFrame(fs[0], Encode(fs[1..]), Contents(fs[1..]), t);
    }
  }

  /** Demultiplexing inverts framing. */
  lemma DemuxInvertsFraming(fs: seq<Frame>)
    requires AllValid(fs)
    ensures Demux(Encode(fs)) == Contents(fs)
  {
    CutStream(fs, |Encode(fs)|);
    DemuxGivesPayloads(Encode(fs));
    assert Encode(fs)[..|Encode(fs)|] == Encode(fs);
    assert fs != [] ==> |Encode(fs)| >= HEADER;
  }

  /**
   A stream cut after `t` bytes gives a prefix of the payloads, whatever the frames were, exactly
   when `t` is zero or covers a whole header: a shorter piece is passed through as it stands.
   */
  lemma CutIsAPrefixExactly(t: nat)
    ensures (forall fs: seq<Frame> | AllValid(fs) && t <= |Encode(fs)| :: Demux(Encode(fs)[..t]) <= Contents(fs))
            <==> (t == 0 || t >= HEADER)
  {
    if t == 0 || t >= HEADER {
      forall fs: seq<Frame> | AllValid(fs) && t <= |Encode(fs)|
        ensures Demux(Encode(fs)[..t]) <= Contents(fs)
      {
        CutStream(fs, t);
        DemuxGivesPayloads(Encode(fs)[..t]);
      }
    } else {
      var fs := [Frame(1, [])];
      assert Contents(fs) == [];
      assert Encode(fs) == Header(fs[0]);
      assert AllValid(fs) && t <= |Encode(fs)|;
      assert |Demux(Encode(fs)[..t])| == t;
    }
  }

  lemma {:induction false} PayloadsAreNoLonger(s: seq<byte>)
    ensures Payloads(s).Some? ==> |Payloads(s).value| <= |s|
    decreases |s|
  {
    if |s| >= HEADER && GoodHeader(s) {
      PayloadsAreNoLonger(Remainder(s));
    }
  }

  /** What no frame starts with: another stream number, or a byte after it that is not zero. */
  ghost predicate NoFrameStart(s: seq<byte>) {
    |s| >= 8 && (s[0] > 2 || s[1] > 0 || s[2] > 0 || s[3] > 0)
  }

  /** On arbitrary bytes the output is no longer than the input, and unframed or short input passes through unchanged. */
  lemma DemuxIsSafeOnAnyBytes(raw: seq<byte>)
    ensures |Demux(raw)| <= |raw|
    ensures |raw| < 8 || NoFrameStart(raw) ==> Demux(raw) == raw
  {
    PayloadsAreNoLonger(raw);
    DemuxGivesPayloads(raw);
  }

  lemma PayloadsOfFirstFrame(f: Frame, rest: seq<byte>)
    requires f.Valid()
    ensures Payloads(Header(f) + f.payload + rest) == Prepend(f.payload, Payloads(rest))
  {
    var whole := Header(f) + f.payload + rest;
    CutStep(f, rest, |whole|);
    assert whole[..|whole|] == whole && rest[..|rest|] == rest;
  }

  lemma FirstFrameThenTail(fs: seq<Frame>, tail: seq<byte>)
    requires AllValid(fs) && fs != []
    ensures Payloads(Encode(fs) + tail) == Prepend(fs[0].payload, Payloads(Encode(fs[1..]) + tail))
  {
    var frame := Header(fs[0]) + fs[0].payload;
    PayloadsOfFirstFrame(fs[0], Encode(fs[1..]) + tail);
    Regroup(frame, Encode(fs[1..]), tail);
  }

  lemma Regroup(a: seq<byte>, b: seq<byte>, c: seq<byte>)
    ensures a + b + c == a + (b + c)
  {
  }

  lemma {:induction false} RawTail(fs: seq<Frame>, tail: seq<byte>)
    requires AllValid(fs) && NoFrameStart(tail)
    ensures Payloads(Encode(fs) + tail) == None
  {
    if fs == [] {
      assert Encode(fs) + tail == tail;
    } else {
      RawTail(fs[1..], tail);
      FirstFrameThenTail(fs, tail);
    }
  }

  lemma {:induction false} ShortTail(fs: seq<Frame>, tail: seq<byte>)
    requires AllValid(fs) && |tail| < 8
    ensures Payloads(Encode(fs) + tail) == Some(Contents(fs))
  {
    if fs == [] {
      assert Encode(fs) + tail == tail;
    } else {
      ShortTail(fs[1..], tail);
      FirstFrameThenTail(fs, tail);
    }
  }

  /** Whatever follows the frames decides: bytes that start no frame make the whole input raw, a broken header is dropped. */
  lemma BytesAfterFrames(fs: seq<Frame>, tail: seq<byte>)
    requires AllValid(fs)
    ensures NoFrameStart(tail) ==> Demux(Encode(fs) + tail) == Encode(fs) + tail
    ensures fs != [] && |tail| < 8 ==> Demux(Encode(fs) + tail) == Contents(fs)
  {
    DemuxGivesPayloads(Encode(fs) + tail);
    if NoFrameStart(tail) {
      RawTail(fs, tail);
    }
    if fs != [] && |tail| < 8 {
      ShortTail(fs, tail);
      assert |Encode(fs)| >= HEADER;
    }
  }
}
