/** The byte layout of a log entry and of the acknowledgement slots at its head,
    and what a reader sees while an RDMA write is still landing.

      0..168    ack[7], 24 bytes each: msg_vs, node_id, padding, hash
      168..176  msg_vs           176..184  req_canbe_exed
      184..188  node_id          192..200  data_size
      200       type             204..212  clt_id
      212..     data, then the end marker in the last byte of the entry */
module EntryLayout {
  import opened Bytes
  import opened ViewStamps

  const MAX_SERVER_COUNT := 7
  const ACK_SIZE := 24
  const ACKS_SIZE := 168
  const HEADER_SIZE := 216
  const RECORD_AT := 192
  const RECORD_HEADER := 24
  const LOG_SIZE := 16384 * 4 * 4096
  const END_MARK: byte := 102

  datatype Entry = Entry(msg: ViewStamp, canExec: ViewStamp, node: u32,
                         kind: byte, clt: ViewStamp, data: seq<byte>)

  /** `log_entry_len`: the header plus the stored size, in 32 bits. */
  function EntryLen(dataSize: nat): (n: nat)
  {
    (HEADER_SIZE + dataSize) % U32
  }

  /** The length of the entry that carries `data`: its size field is one larger. */
  function LengthFor(data: seq<byte>): (n: nat)
  {
    HEADER_SIZE + |data| + 1
  }

  function StampBytes(vs: ViewStamp): (s: seq<byte>)
    ensures |s| == 8
  {
    ToLE(vs.view, 4) + ToLE(vs.req, 4)
  }

  /** The `request_record` cut out of an entry: from `data_size` up to, and not
      including, the end marker. */
  function RecordBytes(kind: byte, clt: ViewStamp, data: seq<byte>): (s: seq<byte>)
    ensures |s| == RECORD_HEADER + |data|
  {
    ToLE(|data| + 1, 8) + [kind, 0, 0, 0] + StampBytes(clt) + data + [0, 0, 0, 0]
  }

  /** Everything in an entry behind the acknowledgement slots. */
  function Body(e: Entry): (s: seq<byte>)
    ensures |s| == LengthFor(e.data) - ACKS_SIZE
  {
    StampBytes(e.msg) + StampBytes(e.canExec) + ToLE(e.node, 4) + [0, 0, 0, 0]
    + RecordBytes(e.kind, e.clt, e.data) + [END_MARK]
  }

  function Load32(mem: seq<byte>, at: nat): (n: u32)
    requires at + 4 <= |mem|
  {
    LEBound(mem[at..at + 4]);
    Pow256Values();
    FromLE(mem[at..at + 4])
  }

  function Load64(mem: seq<byte>, at: nat): (n: nat)
    requires at + 8 <= |mem|
  {
    FromLE(mem[at..at + 8])
  }

  function LoadStamp(mem: seq<byte>, at: nat): (vs: ViewStamp)
    requires at + 8 <= |mem|
  {
    ViewStamp(Load32(mem, at), Load32(mem, at + 4))
  }

  /** The poll of a replica: a non-zero size, and the end marker at the last byte
      that this size points to. */
  predicate Complete(mem: seq<byte>, at: nat)
    requires at + HEADER_SIZE <= |mem|
  {
    var size := Load64(mem, at + RECORD_AT);
    var last := at + EntryLen(size) - 1;
    size != 0 && 0 <= last < |mem| && mem[last] == END_MARK
  }

  /** The slice of memory that starts at `at` and reads `s`. */
  predicate Reads(mem: seq<byte>, at: nat, s: seq<byte>)
  {
    at + |s| <= |mem| && mem[at..at + |s|] == s
  }

  lemma ReadsPart(mem: seq<byte>, at: nat, before: seq<byte>, s: seq<byte>, after: seq<byte>)
    requires Reads(mem, at, before + s + after)
    ensures Reads(mem, at + |before|, s)
  {
    var whole := before + s + after;
    var from := at + |before|;
    forall i | 0 <= i < |s| ensures mem[from..from + |s|][i] == s[i] {
      assert mem[at..at + |whole|][|before| + i] == whole[|before| + i] == s[i];
    }
  }

  lemma LoadStored32(mem: seq<byte>, at: nat, n: u32)
    requires Reads(mem, at, ToLE(n, 4))
    ensures Load32(mem, at) == n
  {
    Pow256Values();
    LERoundTrip(n, 4);
  }

  lemma LoadStoredStamp(mem: seq<byte>, at: nat, vs: ViewStamp)
    requires Reads(mem, at, StampBytes(vs))
    ensures LoadStamp(mem, at) == vs
  {
    assert ToLE(vs.view, 4) + ToLE(vs.req, 4) == [] + ToLE(vs.view, 4) + ToLE(vs.req, 4);
    ReadsPart(mem, at, [], ToLE(vs.view, 4), ToLE(vs.req, 4));
    assert ToLE(vs.view, 4) + ToLE(vs.req, 4) == ToLE(vs.view, 4) + ToLE(vs.req, 4) + [];
    ReadsPart(mem, at, ToLE(vs.view, 4), ToLE(vs.req, 4), []);
    LoadStored32(mem, at, vs.view);
    LoadStored32(mem, at + 4, vs.req);
  }

  lemma LoadStoredSize(mem: seq<byte>, at: nat, n: nat)
    requires Reads(mem, at, ToLE(n, 8)) && n < U64
    ensures Load64(mem, at) == n
  {
    Pow256Values();
    LERoundTrip(n, 8);
  }

  /** Where each field of a body lies. */
  lemma BodyParts(mem: seq<byte>, at: nat, e: Entry)
    requires Reads(mem, at + ACKS_SIZE, Body(e))
    ensures Reads(mem, at + 168, StampBytes(e.msg))
    ensures Reads(mem, at + 176, StampBytes(e.canExec))
    ensures Reads(mem, at + 184, ToLE(e.node, 4))
    ensures Reads(mem, at + 192, RecordBytes(e.kind, e.clt, e.data))
    ensures mem[at + LengthFor(e.data) - 1] == END_MARK
  {
    hide ToLE, StampBytes, RecordBytes;
    var m, c, n, z := StampBytes(e.msg), StampBytes(e.canExec), ToLE(e.node, 4), [0, 0, 0, 0];
    var r, f := RecordBytes(e.kind, e.clt, e.data), [END_MARK];
    var base := at + ACKS_SIZE;
    assert Body(e) == [] + m + (c + n + z + r + f);
    ReadsPart(mem, base, [], m, c + n + z + r + f);
    assert Body(e) == m + c + (n + z + r + f);
    ReadsPart(mem, base, m, c, n + z + r + f);
    assert Body(e) == m + c + n + (z + r + f);
    ReadsPart(mem, base, m + c, n, z + r + f);
    assert Body(e) == m + c + n + z + r + f;
    ReadsPart(mem, base, m + c + n + z, r, f);
    assert Body(e) == (m + c + n + z + r) + f + [];
    ReadsPart(mem, base, m + c + n + z + r, f, []);
    assert mem[at + LengthFor(e.data) - 1] == f[0];
  }

  /** The size of a record is its first field. */
  lemma RecordSize(mem: seq<byte>, at: nat, kind: byte, clt: ViewStamp, data: seq<byte>)
    requires Reads(mem, at, RecordBytes(kind, clt, data))
    requires LengthFor(data) <= LOG_SIZE
    ensures Load64(mem, at) == |data| + 1
  {
    var s := ToLE(|data| + 1, 8);
    var rest := [kind, 0, 0, 0] + StampBytes(clt) + data + [0, 0, 0, 0];
    assert RecordBytes(kind, clt, data) == [] + s + rest;
    ReadsPart(mem, at, [], s, rest);
    LoadStoredSize(mem, at, |data| + 1);
  }

  /** Decoding an entry that is there in full gives back what was encoded. */
  lemma DecodeEncoded(mem: seq<byte>, at: nat, e: Entry)
    requires Reads(mem, at + ACKS_SIZE, Body(e))
    requires LengthFor(e.data) <= LOG_SIZE
    ensures at + HEADER_SIZE <= |mem|
    ensures LoadStamp(mem, at + 168) == e.msg
    ensures LoadStamp(mem, at + 176) == e.canExec
    ensures Load32(mem, at + 184) == e.node
    ensures Load64(mem, at + RECORD_AT) == |e.data| + 1
    ensures EntryLen(|e.data| + 1) == LengthFor(e.data)
    ensures mem[at + RECORD_AT..at + LengthFor(e.data) - 1] == RecordBytes(e.kind, e.clt, e.data)
    ensures Complete(mem, at)
  {
    hide Body, ToLE, StampBytes, RecordBytes, LoadStamp, Load32, Load64;
    BodyParts(mem, at, e);
    LoadStoredStamp(mem, at + 168, e.msg);
    LoadStoredStamp(mem, at + 176, e.canExec);
    LoadStored32(mem, at + 184, e.node);
    RecordSize(mem, at + RECORD_AT, e.kind, e.clt, e.data);
  }

  /** The fields of a stored record, as the replay reads them back. */
  datatype Record = Record(dataSize: nat, kind: byte, clt: ViewStamp, payload: seq<byte>)

  function DecodeRecord(r: seq<byte>): (d: Record)
    requires RECORD_HEADER <= |r|
  {
    var size := Load64(r, 0);
    Record(size, r[8], LoadStamp(r, 12),
           if 1 <= size && 20 + (size - 1) <= |r| then r[20..20 + (size - 1)] else [])
  }

  /** The +1 on the size at the leader and the -1 at the replica cancel: the
      replayed payload is the submitted one, without padding or end marker. */
  lemma RecordRoundTrip(kind: byte, clt: ViewStamp, data: seq<byte>)
    requires LengthFor(data) <= LOG_SIZE
    ensures DecodeRecord(RecordBytes(kind, clt, data)) == Record(|data| + 1, kind, clt, data)
    ensures var r := RecordBytes(kind, clt, data);
            Load64(r, 0) == |data| + 1 && r[8] == kind && LoadStamp(r, 12) == clt && r[20..20 + |data|] == data
  {
    var r := RecordBytes(kind, clt, data);
    var s, k, c, z := ToLE(|data| + 1, 8), [kind, 0, 0, 0], StampBytes(clt), [0, 0, 0, 0];
    assert r[0..|r|] == r;
    assert Reads(r, 0, r);
    RecordSize(r, 0, kind, clt, data);
    assert r == s + k + (c + data + z);
    ReadsPart(r, 0, s, k, c + data + z);
    assert r[8] == r[8..12][0];
    assert r == (s + k) + c + (data + z);
    ReadsPart(r, 0, s + k, c, data + z);
    LoadStoredStamp(r, 12, clt);
    assert r == (s + k + c) + data + z;
    ReadsPart(r, 0, s + k + c, data, z);
  }

  // ---------------------------------------------------------------- torn writes

  /** `landed` bytes of entry `e` have been written at `at`, in increasing order,
      into zeroed memory.  What lies in the acknowledgement slots and outside the
      entry is left open. */
  ghost predicate Landed(mem: seq<byte>, at: nat, e: Entry, landed: nat)
  {
    && at + LengthFor(e.data) <= |mem|
    && forall a :: at + ACKS_SIZE <= a < at + LengthFor(e.data) ==>
         mem[a] == if a < at + landed then Body(e)[a - at - ACKS_SIZE] else 0
  }

  lemma LandedInFull(mem: seq<byte>, at: nat, e: Entry)
    requires Landed(mem, at, e, LengthFor(e.data))
    ensures Reads(mem, at + ACKS_SIZE, Body(e))
  {
    var b := Body(e);
    forall i | 0 <= i < |b| ensures mem[at + ACKS_SIZE..at + ACKS_SIZE + |b|][i] == b[i] {
      assert mem[at + ACKS_SIZE + i] == b[i];
    }
  }

  lemma SizeBytes(e: Entry, i: nat)
    requires i < 8
    ensures Body(e)[RECORD_AT - ACKS_SIZE + i] == ToLE(|e.data| + 1, 8)[i]
  {
    var front := StampBytes(e.msg) + StampBytes(e.canExec) + ToLE(e.node, 4) + [0, 0, 0, 0];
    var r := RecordBytes(e.kind, e.clt, e.data);
    assert Body(e) == front + r + [END_MARK];
    assert Body(e)[|front| + i] == r[i];
  }

  /** A size field that has landed only in part reads no larger than the real one. */
  lemma TornSize(mem: seq<byte>, at: nat, e: Entry, landed: nat)
    requires Landed(mem, at, e, landed)
    requires LengthFor(e.data) <= LOG_SIZE
    ensures Load64(mem, at + RECORD_AT) <= |e.data| + 1
    ensures landed <= RECORD_AT ==> Load64(mem, at + RECORD_AT) == 0
    ensures RECORD_AT + 8 <= landed ==> Load64(mem, at + RECORD_AT) == |e.data| + 1
  {
    var torn := mem[at + RECORD_AT..at + RECORD_AT + 8];
    var size := ToLE(|e.data| + 1, 8);
    forall i | 0 <= i < 8
      ensures torn[i] == if RECORD_AT + i < landed then size[i] else 0
    {
      assert mem[at + RECORD_AT + i] == torn[i];
      SizeBytes(e, i);
    }
    LEMonotone(torn, size);
    Pow256Values();
    LERoundTrip(|e.data| + 1, 8);
    if landed <= RECORD_AT { ZerosReadZero(torn); }
    if RECORD_AT + 8 <= landed { assert torn == size; }
  }

  /** The poll of a replica succeeds exactly when the whole entry has landed,
      also when the size field itself is cut. */
  lemma TornWrite(mem: seq<byte>, at: nat, e: Entry, landed: nat)
    requires Landed(mem, at, e, landed) && landed <= LengthFor(e.data) <= LOG_SIZE
    ensures Complete(mem, at) <==> landed == LengthFor(e.data)
  {
    hide Body, Load64, Reads, RecordBytes, LoadStamp, Load32;
    if landed == LengthFor(e.data) {
      LandedInFull(mem, at, e);
      DecodeEncoded(mem, at, e);
    } else {
      TornSize(mem, at, e, landed);
      var size := Load64(mem, at + RECORD_AT);
      if size != 0 {
        var k := EntryLen(size) - 1;
        assert HEADER_SIZE <= k < LengthFor(e.data);
        assert landed <= k;
        assert mem[at + k] == 0;
      }
    }
  }

  // ------------------------------------------------------- acknowledgement slots

  /** An acknowledgement: stamp, sender, then padding and output hash. */
  function AckBytes(vs: ViewStamp, node: u32, rest: seq<byte>): (s: seq<byte>)
    requires |rest| == 12
    ensures |s| == ACK_SIZE
  {
    StampBytes(vs) + ToLE(node, 4) + rest
  }

  /** The first `landed` bytes of `ack` are in the slot at `at`, over zeros. */
  ghost predicate AckLanded(mem: seq<byte>, at: nat, ack: seq<byte>, landed: nat)
  {
    && |ack| == ACK_SIZE
    && at + ACK_SIZE <= |mem|
    && forall a :: at <= a < at + ACK_SIZE ==> mem[a] == if a < at + landed then ack[a - at] else 0
  }

  /** The sender field of a slot reads as the sender or, until it lands, as node 0. */
  lemma TornAck(mem: seq<byte>, at: nat, vs: ViewStamp, node: u32, rest: seq<byte>, landed: nat)
    requires |rest| == 12 && node < 256
    requires AckLanded(mem, at, AckBytes(vs, node, rest), landed)
    ensures Load32(mem, at + 8) == if 9 <= landed then node else 0
    ensures 8 <= landed ==> LoadStamp(mem, at) == vs
    ensures landed == 0 ==> LoadStamp(mem, at) == ViewStamp(0, 0)
  {
    var ack := AckBytes(vs, node, rest);
    var s, n := StampBytes(vs), ToLE(node, 4);
    assert n[0] == node;
    assert n[1..] == ToLE(node / 256, 3);
    assert ToLE(0, 3) == [0, 0, 0];
    assert n == [node, 0, 0, 0];
    var field := mem[at + 8..at + 12];
    forall i | 0 <= i < 4 ensures field[i] == if i == 0 && 9 <= landed then node else 0 {
      assert mem[at + 8 + i] == field[i];
      assert ack[8 + i] == n[i];
    }
    if 9 <= landed {
      assert field == n;
      Pow256Values();
      LERoundTrip(node, 4);
    } else {
      ZerosReadZero(field);
    }
    if 8 <= landed {
      assert forall a :: at <= a < at + 8 ==> mem[a] == ack[a - at] == s[a - at];
      assert mem[at..at + 8] == s;
      LoadStoredStamp(mem, at, vs);
    }
    if landed == 0 {
      ZerosReadZero(mem[at..at + 4]);
      ZerosReadZero(mem[at + 4..at + 8]);
    }
  }

  /** How many bytes of the hash field have landed. */
  function HashBytes(landed: nat): (b: nat)
    ensures b <= 8
  {
    if landed <= 16 then 0 else if landed >= ACK_SIZE then 8 else landed - 16
  }

  /** The value of a hash field that has landed in part. */
  function CutHash(hash: nat, landed: nat): (h: nat)
  {
    hash % Pow256(HashBytes(landed))
  }

  /** The output hash of a slot reads as what has landed of it. */
  lemma TornHash(mem: seq<byte>, at: nat, vs: ViewStamp, node: u32, pad: seq<byte>, hash: nat, landed: nat)
    requires |pad| == 4 && AckLanded(mem, at, AckBytes(vs, node, pad + ToLE(hash, 8)), landed)
    ensures Load64(mem, at + 16) == CutHash(hash, landed)
  {
    hide StampBytes, FromLE;
    var ack, field, b := AckBytes(vs, node, pad + ToLE(hash, 8)), mem[at + 16..at + 24], HashBytes(landed);
    forall i | 0 <= i < 8 ensures field[i] == if i < b then ToLE(hash, 8)[i] else 0 {
      assert field[i] == mem[at + 16 + i];
      assert ack[16 + i] == ToLE(hash, 8)[i];
    }
    LECut(field, hash, 8, b);
  }

  /** What the scan of one slot adds to the bitmap, given the stamp it waits for. */
  function Counted(mem: seq<byte>, at: nat, vs: ViewStamp): (ids: set<nat>)
    requires at + ACK_SIZE <= |mem|
  {
    if LoadStamp(mem, at) == vs then {Load32(mem, at + 8)} else {}
  }

  /** A leader at `leader` in a group of `group` nodes can be misled by a partly
      landed acknowledgement when, and only when, it is not node 0 and some other
      non-zero node may acknowledge. */
  predicate TornAcksHarmless(leader: nat, group: nat)
  {
    leader == 0 || group <= 2
  }

  /** For every stamp, sender and landed prefix, the scan counts only the leader
      or the sender -- exactly in the groups where torn acknowledgements are
      harmless. */
  lemma TornAckSound(leader: nat, group: nat)
    requires leader < group <= MAX_SERVER_COUNT
    ensures TornAcksHarmless(leader, group) <==>
              forall vs: ViewStamp, node: u32, rest: seq<byte>, landed: nat, mem: seq<byte>, at: nat ::
                node < group && node != leader && |rest| == 12
                && AckLanded(mem, at, AckBytes(vs, node, rest), landed)
                ==> Counted(mem, at, vs) <= {leader as nat, node}
  {
    forall vs: ViewStamp, node: u32, rest: seq<byte>, landed: nat, mem: seq<byte>, at: nat |
      node < group && node != leader && |rest| == 12
      && AckLanded(mem, at, AckBytes(vs, node, rest), landed)
      && TornAcksHarmless(leader, group)
      ensures Counted(mem, at, vs) <= {leader as nat, node}
    {
      TornAck(mem, at, vs, node, rest, landed);
    }
    if !TornAcksHarmless(leader, group) {
      var node: u32 := if leader == 1 then 2 else 1;
      var vs, rest := ViewStamp(1, 1), seq(12, i => 0 as byte);
      var ack := AckBytes(vs, node, rest);
      var mem := ack[..8] + seq(16, i => 0 as byte);
      assert AckLanded(mem, 0, ack, 8);
      TornAck(mem, 0, vs, node, rest, 8);
      assert 0 in Counted(mem, 0, vs);
    }
  }
}
