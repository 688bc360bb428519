/** Hashing of the output stream of a connection, block by block, and the schedule
    by which the leader proposes a hash for comparison. */
module Output {
  import opened Crc64

  const HASH_BUFFER_SIZE := 1024
  const CHECK_PERIOD := 10
  const CHECK_GOBACK := 5

  // -------------------------------------------------------------- specification

  /** The number of full blocks in a stream. */
  function Blocks(stream: seq<bv8>): (n: nat)
    ensures HASH_BUFFER_SIZE * n <= |stream| < HASH_BUFFER_SIZE * (n + 1)
  {
    |stream| / HASH_BUFFER_SIZE
  }

  /** The hash at index `k`: the checksum of everything up to the end of block `k`. */
  function HashAt(stream: seq<bv8>, k: nat): (h: bv64)
    requires k < Blocks(stream)
  {
    Checksum(0, stream[..HASH_BUFFER_SIZE * (k + 1)])
  }

  function Hashes(stream: seq<bv8>): (h: seq<bv64>)
    ensures |h| == Blocks(stream)
  {
    seq(Blocks(stream), k requires 0 <= k < Blocks(stream) => HashAt(stream, k))
  }

  /** Hashes depend only on what lies before them. */
  lemma HashesPrefix(s: seq<bv8>, t: seq<bv8>, k: nat)
    requires k < Blocks(s) && k < Blocks(t)
    requires s[..HASH_BUFFER_SIZE * (k + 1)] == t[..HASH_BUFFER_SIZE * (k + 1)]
    ensures Hashes(s)[k] == Hashes(t)[k]
  {
  }

  /** More bytes add hashes and change none. */
  lemma HashesGrow(s: seq<bv8>, t: seq<bv8>)
    ensures Blocks(s) <= Blocks(s + t) && Hashes(s) == Hashes(s + t)[..Blocks(s)]
  {
    hide Checksum;
    forall k | 0 <= k < Blocks(s) ensures Hashes(s)[k] == Hashes(s + t)[k] {
      assert (s + t)[..HASH_BUFFER_SIZE * (k + 1)] == s[..HASH_BUFFER_SIZE * (k + 1)];
    }
  }

  /** The hash of a block extends the hash of the blocks before it. */
  lemma NextHash(stream: seq<bv8>, n: nat, block: seq<bv8>)
    requires HASH_BUFFER_SIZE * (n + 1) <= |stream|
    requires block == stream[HASH_BUFFER_SIZE * n..HASH_BUFFER_SIZE * (n + 1)]
    ensures Checksum(Checksum(0, stream[..HASH_BUFFER_SIZE * n]), block) ==
              Checksum(0, stream[..HASH_BUFFER_SIZE * (n + 1)])
  {
    ChecksumConcat(0, stream[..HASH_BUFFER_SIZE * n], block);
    assert stream[..HASH_BUFFER_SIZE * n] + block == stream[..HASH_BUFFER_SIZE * (n + 1)];
  }

  // -------------------------------------------------------------------- the code

  class OutputHandler {
    var count: nat
    var outputList: seq<bv64>
    var hash: bv64
    const buffer: array<bv8>
    var curr: nat
    var calledCnt: nat
    ghost var stream: seq<bv8>
    ghost var proposed: seq<int>

    /** The list holds the hashes of the blocks hashed so far, the buffer what
        follows them, at most one full block. */
    ghost predicate Consistent()
      reads this, buffer
    {
      && buffer.Length == HASH_BUFFER_SIZE
      && curr <= HASH_BUFFER_SIZE
      && |stream| == HASH_BUFFER_SIZE * count + curr
      && |outputList| == count
      && (forall k :: 0 <= k < count ==> outputList[k] == Checksum(0, stream[..HASH_BUFFER_SIZE * (k + 1)]))
      && hash == Checksum(0, stream[..HASH_BUFFER_SIZE * count])
      && buffer[..curr] == stream[HASH_BUFFER_SIZE * count..]
    }

    /** Between calls the buffer is never full, so every turn of the copying loop
        makes progress. */
    ghost predicate Valid()
      reads this, buffer
    {
      Consistent() && curr < HASH_BUFFER_SIZE
    }

    /** The schedule of proposals: at most one round per hash, and since the last
        proposal at least one hash per round. */
    ghost predicate Paced()
      reads this
    {
      && calledCnt <= count
      && |proposed| == calledCnt / CHECK_PERIOD
      && (proposed != [] ==>
            && 0 <= proposed[|proposed| - 1]
            && proposed[|proposed| - 1] + CHECK_GOBACK + calledCnt % CHECK_PERIOD <= count)
      && (forall i :: 0 < i < |proposed| ==> proposed[i - 1] + CHECK_PERIOD <= proposed[i])
    }

    constructor ()
      ensures Valid() && Paced() && stream == [] && proposed == [] && fresh(buffer)
    {
      count, outputList, hash, curr, calledCnt := 0, [], 0, 0, 0;
      stream, proposed := [], [];
      buffer := new bv8[HASH_BUFFER_SIZE](_ => 0);
    }

    /** `memcpy` of `n` bytes into the buffer. */
    method Fill(bytes: seq<bv8>)
      requires curr + |bytes| <= buffer.Length
      modifies buffer, this`curr
      ensures curr == old(curr) + |bytes|
      ensures buffer[..curr] == old(buffer[..curr]) + bytes
    {
      var i := 0;
      while i < |bytes|
        invariant 0 <= i <= |bytes| && curr == old(curr)
        invariant buffer[..curr] == old(buffer[..curr])
        invariant buffer[curr..curr + i] == bytes[..i]
      {
        buffer[curr + i] := bytes[i];
        i := i + 1;
      }
      assert buffer[..curr + i] == buffer[..curr] + buffer[curr..curr + i];
      curr := curr + |bytes|;
    }

    /** A full buffer becomes one more hash. */
    method HashBlock()
      requires Consistent() && curr == HASH_BUFFER_SIZE
      modifies this`count, this`outputList, this`hash, this`curr
      ensures Valid() && curr == 0 && count == old(count) + 1
    {
      hide Checksum;
      NextHash(stream, count, buffer[..]);
      assert buffer[..curr] == buffer[..];
      hash := Crc64.Crc64(hash, buffer, HASH_BUFFER_SIZE);
      curr := 0;
      outputList := outputList + [hash];
      count := count + 1;
    }

    /** `store_output` on one handler: the return value is the number of hashes that
        the bytes have completed. */
    method StoreOutput(buff: seq<bv8>) returns (n: nat)
      requires Valid()
      modifies this`count, this`outputList, this`hash, this`curr, this`stream, buffer
      ensures Valid()
      ensures stream == old(stream) + buff
      ensures count == old(count) + n
    {
      hide Checksum;
      n := 0;
      var pushed := 0;
      assert buff[..0] == [];
      while pushed < |buff|
        invariant 0 <= pushed <= |buff|
        invariant Valid()
        invariant stream == old(stream) + buff[..pushed]
        invariant count == old(count) + n
      {
        var left, waiting := HASH_BUFFER_SIZE - curr, |buff| - pushed;
        var actual := if left < waiting then left else waiting;
        Append(buff[pushed..pushed + actual]);
        assert buff[..pushed] + buff[pushed..pushed + actual] == buff[..pushed + actual];
        pushed := pushed + actual;
        if curr == HASH_BUFFER_SIZE {
          HashBlock();
          n := n + 1;
        }
      }
      assert buff[..pushed] == buff;
    }

    /** Bytes that fit go to the buffer. */
    method Append(bytes: seq<bv8>)
      requires Valid() && curr + |bytes| <= HASH_BUFFER_SIZE
      modifies this`curr, this`stream, buffer
      ensures Consistent() && stream == old(stream) + bytes && curr == old(curr) + |bytes|
    {
      hide Checksum;
      ghost var before := stream;
      Fill(bytes);
      stream := stream + bytes;
      assert stream[..HASH_BUFFER_SIZE * count] == before[..HASH_BUFFER_SIZE * count];
      forall k | 0 <= k < count ensures outputList[k] == Checksum(0, stream[..HASH_BUFFER_SIZE * (k + 1)]) {
        assert stream[..HASH_BUFFER_SIZE * (k + 1)] == before[..HASH_BUFFER_SIZE * (k + 1)];
      }
      assert stream[HASH_BUFFER_SIZE * count..] == before[HASH_BUFFER_SIZE * count..] + bytes;
    }

    /** `determine_output`: every tenth call proposes the index five hashes back. */
    method DetermineOutput() returns (index: int)
      modifies this`calledCnt
      ensures calledCnt == old(calledCnt) + 1
      ensures index == if calledCnt % CHECK_PERIOD == 0 && count >= CHECK_GOBACK then count - CHECK_GOBACK else -1
    {
      index := -1;
      calledCnt := calledCnt + 1;
      if calledCnt % CHECK_PERIOD == 0 {
        var back := count - CHECK_GOBACK;
        if back >= 0 {
          index := back;
        } else {
          index := -1;
        }
      }
    }

    /** `mgr_on_check` at the leader, up to the proposal.  Every tenth call that
        completes a hash proposes an index that is in the list already; the branch
        for a list that is too short is never taken, and successive proposals lie
        at least ten apart. */
    method OnCheck(buff: seq<bv8>) returns (index: int)
      requires Valid() && Paced()
      modifies this, buffer
      ensures Valid() && Paced()
      ensures stream == old(stream) + buff
      ensures calledCnt == old(calledCnt) + if count > old(count) then 1 else 0
      ensures index == -1 <==> !(calledCnt > old(calledCnt) && calledCnt % CHECK_PERIOD == 0)
      ensures index != -1 ==> 0 <= index == count - CHECK_GOBACK && proposed == old(proposed) + [index]
      ensures index == -1 ==> proposed == old(proposed)
    {
      index := -1;
      var rc := StoreOutput(buff);
      if rc <= 0 {
        return;
      }
      index := DetermineOutput();
      if index != -1 {
        proposed := proposed + [index];
      }
    }

    /** `get_val_by_index`: walk the list to the index; 0 if it is not there. */
    method GetValByIndex(index: int) returns (val: bv64)
      ensures val == if 0 <= index < |outputList| then outputList[index] else 0
    {
      val := 0;
      var cnt := 0;
      while cnt < |outputList|
        invariant 0 <= cnt <= |outputList|
        invariant !(0 <= index < cnt)
      {
        if index == cnt {
          return outputList[cnt];
        }
        cnt := cnt + 1;
      }
    }

    /** `get_output_hash`: the hash of the first blocks of the stream, or 0 while the
        stream has not got that far. */
    method GetOutputHash(index: int) returns (val: bv64)
      requires Valid()
      ensures val == if 0 <= index < Blocks(stream) then HashAt(stream, index) else 0
    {
      assert count == Blocks(stream);
      if index < count {
        val := GetValByIndex(index);
      } else {
        val := 0;
      }
    }

    /** The list is that of the stream: chunks leave no trace. */
    lemma ListIsHashes()
      requires Valid()
      ensures count == Blocks(stream) && outputList == Hashes(stream)
    {
      hide Checksum;
    }
  }

  /** Two handlers that have been given the same bytes agree, however the bytes were
      cut into calls. */
  lemma ChunkIndependent(a: OutputHandler, b: OutputHandler)
    requires a.Valid() && b.Valid() && a.stream == b.stream
    ensures a.count == b.count && a.outputList == b.outputList && a.hash == b.hash
    ensures a.curr == b.curr && a.buffer[..a.curr] == b.buffer[..b.curr]
  {
    hide Checksum;
  }
}
