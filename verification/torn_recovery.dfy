/**
 * The write-ahead log of the recovery model, as bytes. A process may stop after any byte of an append; the file is then
 * read back from its first byte and the shard reopened from what was read.
 */
module TornRecovery {
  import opened Collections
  import opened ShardLayers
  import opened Recovery
  import W = WalBytes

  /** How a mutation is written as a log record, and read back. */
  datatype Codec = Codec(operation: Mutation -> W.Byte, payload: Mutation -> W.Bytes,
      decode: (W.Byte, W.Bytes) -> Option<Mutation>)

  ghost predicate Lossless(c: Codec)
  {
    forall mu :: W.KnownOperation(c.operation(mu)) && c.decode(c.operation(mu), c.payload(mu)) == Some(mu)
  }

  function Encode(c: Codec, l: Logged): W.Record
  {
    W.Record(l.lsn, c.operation(l.mutation), c.payload(l.mutation))
  }

  function EncodeAll(c: Codec, wal: seq<Logged>): (r: seq<W.Record>)
    ensures |r| == |wal| && forall i :: 0 <= i < |wal| ==> r[i] == Encode(c, wal[i])
  {
    if wal == [] then [] else EncodeAll(c, wal[..|wal| - 1]) + [Encode(c, wal[|wal| - 1])]
  }

  /** None if some record does not decode. */
  function DecodeAll(c: Codec, records: seq<W.Record>): Option<seq<Logged>>
  {
    if records == [] then Some([])
    else
      var r := records[|records| - 1];
      match (DecodeAll(c, records[..|records| - 1]), c.decode(r.operation, r.payload))
      case (Some(before), Some(mu)) => Some(before + [Logged(r.lsn, mu)])
      case _ => None
  }

  /** Opening the shard from the bytes of its log: a corrupt file or an undecodable record is a refusal. */
  function OpenBytes(c: Codec, crc: W.Checksum, manifest: Option<ShardManifest>, file: W.Bytes): Option<Memory>
  {
    match W.Recover(crc, file, 0, [])
    case Corrupt => None
    case Recovered(records, _) =>
      match DecodeAll(c, records)
      case None => None
      case Some(wal) => Reopen(Disk(manifest, wal))
  }

  lemma {:induction false} DecodeEncode(c: Codec, wal: seq<Logged>)
    requires Lossless(c)
    ensures DecodeAll(c, EncodeAll(c, wal)) == Some(wal)
    decreases |wal|
  {
    if wal != [] {
      var n := |wal| - 1;
      DecodeEncode(c, wal[..n]);
      assert EncodeAll(c, wal)[..n] == EncodeAll(c, wal[..n]);
      assert wal == wal[..n] + [wal[n]];
    }
  }

  /** Positions fit into 64 bits and payloads into the format's limit. */
  ghost predicate Writable(c: Codec, wal: seq<Logged>)
  {
    forall i :: 0 <= i < |wal| ==> wal[i].lsn < 0x1_0000_0000_0000_0000 && |c.payload(wal[i].mutation)| <= W.MAX_PAYLOAD
  }

  lemma EncodedSequence(c: Codec, wal: seq<Logged>, history: seq<Mutation>)
    requires Lossless(c) && Writable(c, wal) && LogMatches(wal, history)
    ensures W.Sequence(EncodeAll(c, wal))
  {
  }

  /** The log of a state the recovery model reaches, with one more record. */
  lemma AppendedMatches(s: System, mu: Mutation)
    requires Inv(s) && s.phase == Idle
    ensures LogMatches(s.disk.wal + [Logged(s.memory.nextLSN, mu)], s.history + [mu])
            && LogMatches(s.disk.wal, s.history)
  {
    hide StackOk, LayersOk, DigestsOk;
  }

  /**
   * Stop after any byte of an append, in any run: the shard reopens exactly if the manifest is accepted and what is
   * checkpointed has a filter file that loads. Until the last byte is written it reopens to the replay of the
   * mutations before it and expects the same position; from the last byte on, to the replay with it.
   */
  lemma CrashInsideAppend(run: seq<System>, actions: seq<Action>, i: nat, c: Codec, crc: W.Checksum, mu: Mutation,
      written: W.Bytes)
    requires IsRun(run, actions) && i < |run| && Unbroken(actions[..i]) && run[i].phase == Idle && Valid(mu)
    requires W.Fits(crc) && Lossless(c) && Writable(c, run[i].disk.wal + [Logged(run[i].memory.nextLSN, mu)])
    requires written <= W.Frame(crc, Encode(c, Logged(run[i].memory.nextLSN, mu)))
    ensures var s := run[i]; var frame := W.Frame(crc, Encode(c, Logged(s.memory.nextLSN, mu)));
            var file := W.File(crc, EncodeAll(c, s.disk.wal)) + written;
            var r := OpenBytes(c, crc, s.disk.manifest, file);
            && (r.Some? <==> Opens(s.disk, s.history))
            && (r.Some? && written != frame ==>
               Seen(r.value.layers) == Replay(s.history) && r.value.nextLSN == |s.history| + 1)
            && (r.Some? && written == frame ==>
               Seen(r.value.layers) == Replay(s.history + [mu]) && r.value.nextLSN == |s.history| + 2)
  {
    hide Next, Inv, Seen, Replay, Reopen, W.Frame, W.Recover, W.File, Valid, Lossless, Writable, LogMatches, Opens;
    RunKeeps(run, actions, i);
    var s := run[i];
    var more := s.disk.wal + [Logged(s.memory.nextLSN, mu)];
    var frame := W.Frame(crc, Encode(c, Logged(s.memory.nextLSN, mu)));
    AppendedMatches(s, mu);
    EncodedSequence(c, more, s.history + [mu]);
    EncodedPush(c, crc, s.disk.wal, Logged(s.memory.nextLSN, mu));
    if written != frame {
      W.TornAppend(crc, EncodeAll(c, s.disk.wal), Encode(c, Logged(s.memory.nextLSN, mu)), written);
      DecodeEncode(c, s.disk.wal);
      StopsAt(s);
    } else {
      W.WholeFile(crc, EncodeAll(c, more));
      DecodeEncode(c, more);
      StopsAfter(s, mu);
    }
  }

  /** Encoding the longer log adds one frame to the file. */
  lemma EncodedPush(c: Codec, crc: W.Checksum, wal: seq<Logged>, l: Logged)
    requires W.Sequence(EncodeAll(c, wal + [l]))
    ensures W.Sequence(EncodeAll(c, wal)) && W.Appendable(Encode(c, l))
    ensures wal != [] ==> Encode(c, l).lsn == W.Last(EncodeAll(c, wal)) + 1
    ensures W.File(crc, EncodeAll(c, wal + [l])) == W.File(crc, EncodeAll(c, wal)) + W.Frame(crc, Encode(c, l))
  {
    hide W.Frame, W.Appendable;
    var more := EncodeAll(c, wal + [l]);
    assert (wal + [l])[..|wal|] == wal;
    assert more[..|wal|] == EncodeAll(c, wal) && more[|wal|] == Encode(c, l);
    W.FilePush(crc, more, |wal|);
    assert more[..|wal| + 1] == more;
    forall i | 0 <= i < |wal| ensures EncodeAll(c, wal)[i] == more[i] {}
  }

  lemma StopsAt(s: System)
    requires Inv(s)
    ensures var r := Reopen(Disk(s.disk.manifest, s.disk.wal));
            && (r.Some? <==> Opens(s.disk, s.history))
            && (r.Some? ==> Seen(r.value.layers) == Replay(s.history) && r.value.nextLSN == |s.history| + 1)
  {
    hide Seen, Replay, Reopen, DiskOk, Opens;
    ReopenOk(s.disk, s.history);
    assert s.disk == Disk(s.disk.manifest, s.disk.wal);
    assert s.history[..|s.history|] == s.history;
  }

  lemma StopsAfter(s: System, mu: Mutation)
    requires Inv(s) && s.phase == Idle && Valid(mu)
    ensures var r := Reopen(Disk(s.disk.manifest, s.disk.wal + [Logged(s.memory.nextLSN, mu)]));
            && (r.Some? <==> Opens(s.disk, s.history))
            && (r.Some? ==> Seen(r.value.layers) == Replay(s.history + [mu]) && r.value.nextLSN == |s.history| + 2)
  {
    hide Seen, Replay, Reopen, Inv, Valid;
    var t := s.(disk := s.disk.(wal := s.disk.wal + [Logged(s.memory.nextLSN, mu)]),
                memory := s.memory.(nextLSN := s.memory.nextLSN + 1), phase := Appended, history := s.history + [mu]);
    AppendKeeps(s, mu, t);
    SamePrefix(s, mu);
    StopsAt(t);
  }

  lemma SamePrefix(s: System, mu: Mutation)
    requires Inv(s)
    ensures Checkpointed(s.disk) <= |s.history|
    ensures (s.history + [mu])[..Checkpointed(s.disk)] == s.history[..Checkpointed(s.disk)]
  {
    hide LayersOk, StackOk, LogMatches;
  }
}
