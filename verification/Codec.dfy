/**
 src/protocol.cpp: encoding commands into the structure of protocols/commands.capnp and
 decoding them again, with the chunking of TIFF data. A Cap'n Proto message is the value it
 carries, not its bytes. `limit` stands for `MAX_CHUNK_SIZE`; any positive size will do.
 */
module Codec {
  import opened Config
  import opened Commands

  datatype JobData =
    | HistogramJobData(filename: string)
    | EqualisationJobData(filename: string, histogramMapping: seq<real>)
    | UnknownJobData

  datatype ProtocolJob = ProtocolJob(jobType: string, data: JobData)

  datatype ResultData =
    | HistogramResultData(filename: string, histogram: seq<real>)
    | EqualisationResultData(filename: string, tiffResult: seq<seq<byte>>)
    | UnknownResultData

  datatype ProtocolResult = ProtocolResult(resultType: string, data: ResultData)

  datatype CommandData =
    | HeloData(concurrency: uint32)
    | EhloData
    | HeartbeatData(kind: HeartbeatType)
    | JobMessage(job: ProtocolJob)
    | ResultMessage(result: ProtocolResult)
    | ByeData
    | UnknownCommandData

  datatype ProtocolCommand = ProtocolCommand(command: string, data: CommandData)

  /**
   What reading a message yields: a value, `nullptr` for a union member this version
   does not know, a failed `assert`, or a list index past the end.
   */
  datatype Decoded<+T> = Ok(value: T) | Null | AssertionFailed | OutOfRange

  // ---------------------------------------------------------------- TIFF chunks

  /** The `lldiv` chunk count of `WorkerEqualisationResultCommand::command_data`. */
  function ChunkCount(length: nat, limit: nat): nat
    requires limit > 0
  {
    length / limit + if length % limit == 0 then 0 else 1
  }

  /** Cutting data into pieces of `limit` bytes, the last one possibly shorter. */
  function Split(data: seq<byte>, limit: nat): seq<seq<byte>>
    requires limit > 0
  {
    if data == [] then []
    else [data[..Min(|data|, limit)]] + Split(data[Min(|data|, limit)..], limit)
  }

  function Join(chunks: seq<seq<byte>>): seq<byte> {
    if chunks == [] then [] else chunks[0] + Join(chunks[1..])
  }

  /** All chunks but the last are full and the last is not empty. */
  predicate Canonical(chunks: seq<seq<byte>>, limit: nat) {
    && (forall i | 0 <= i < |chunks| - 1 :: |chunks[i]| == limit)
    && (chunks != [] ==> 0 < |chunks[|chunks| - 1]| <= limit)
  }

  lemma {:induction false} JoinSplit(data: seq<byte>, limit: nat)
    requires limit > 0
    ensures Join(Split(data, limit)) == data
    ensures Canonical(Split(data, limit), limit)
    ensures Split(data, limit) == [] <==> data == []
    decreases |data|
  {
    if data != [] {
      var n := Min(|data|, limit);
      JoinSplit(data[n..], limit);
      assert Split(data, limit)[1..] == Split(data[n..], limit);
      assert data[..n] + data[n..] == data;
      forall i | 0 <= i < |Split(data, limit)| - 1
        ensures |Split(data, limit)[i]| == limit
      {
        if i > 0 { assert Split(data, limit)[i] == Split(data[n..], limit)[i - 1]; }
      }
    }
  }

  /** A canonical chunk list is the only one `Split` produces for the data it joins to. */
  lemma {:induction false} SplitJoin(chunks: seq<seq<byte>>, limit: nat)
    requires limit > 0 && Canonical(chunks, limit)
    ensures Split(Join(chunks), limit) == chunks
    decreases |chunks|
  {
    if |chunks| == 1 {
      assert chunks[1..] == [];
      assert Join(chunks) == chunks[0];
      assert chunks[0][..|chunks[0]|] == chunks[0];
      assert Split([], limit) == [];
    } else if |chunks| > 1 {
      var rest := chunks[1..];
      assert rest[|rest| - 1] == chunks[|chunks| - 1];
      SplitJoin(rest, limit);
      var data := Join(chunks);
      assert |chunks[0]| == limit;
      assert data[..limit] == chunks[0] && data[limit..] == Join(rest);
      assert chunks == [chunks[0]] + rest;
    }
  }

  lemma ChunkCountStep(length: nat, limit: nat)
    requires limit > 0
    ensures length == 0 ==> ChunkCount(length, limit) == 0
    ensures 0 < length <= limit ==> ChunkCount(length, limit) == 1
    ensures length > limit ==> ChunkCount(length, limit) == 1 + ChunkCount(length - limit, limit)
  {
    if 0 < length < limit {
      assert length / limit == 0;
    } else if length == limit {
      assert length / limit == 1;
    } else if length > limit {
      DivMinus(length, limit);
    }
  }

  lemma DivMinus(a: nat, b: nat)
    requires 0 < b <= a
    ensures a / b == 1 + (a - b) / b && a % b == (a - b) % b
  {
    var q, q' := (a - b) / b, a / b;
    var k := q' - q - 1;
    assert k * b == q' * b - q * b - b;
    assert k * b == (a - b) % b - a % b;
    if k > 0 { MulAtLeast(k, b); }
    if k < 0 { MulAtLeast(-k, b); }
  }

  lemma MulAtLeast(k: int, b: int)
    requires k > 0 && b > 0
    ensures k * b >= b
  {
  }

  lemma {:induction false} OffsetInside(length: nat, limit: nat, i: nat)
    requires limit > 0 && i < ChunkCount(length, limit)
    ensures 0 <= i * limit < length
    decreases length
  {
    ChunkCountStep(length, limit);
    if i > 0 {
      OffsetInside(length - limit, limit, i - 1);
      assert i * limit == (i - 1) * limit + limit;
    }
  }

  lemma {:induction false} ChunkFrom(data: seq<byte>, limit: nat, i: nat, start: nat)
    requires limit > 0 && start == i * limit < |data|
    ensures i < |Split(data, limit)|
    ensures Split(data, limit)[i] == data[start..start + Min(|data| - start, limit)]
    decreases i
  {
    if i > 0 {
      assert start - limit == (i - 1) * limit;
      assert start >= limit by { MulAtLeast(i, limit); }
      ChunkFrom(data[limit..], limit, i - 1, start - limit);
      SliceOfSuffix(data, limit, start - limit, Min(|data| - start, limit));
    }
  }

  /**
   Each chunk starts at a multiple of the limit, inside the data: the subtraction
   `size() - i * MAX_CHUNK_SIZE` never wraps and no chunk is empty or oversized.
   */
  lemma ChunkAt(data: seq<byte>, limit: nat, i: nat)
    requires limit > 0 && i < ChunkCount(|data|, limit)
    ensures |Split(data, limit)| == ChunkCount(|data|, limit)
    ensures 0 <= i * limit < |data|
    ensures var size := Min(|data| - i * limit, limit);
            0 < size && Split(data, limit)[i] == data[i * limit..i * limit + size]
  {
    SplitLength(data, limit);
    OffsetInside(|data|, limit, i);
    ChunkFrom(data, limit, i, i * limit);
  }

  lemma SliceOfSuffix(data: seq<byte>, k: nat, start: nat, size: nat)
    requires k + start + size <= |data|
    ensures data[k..][start..start + size] == data[start + k..start + k + size]
  {
  }

  lemma {:induction false} SplitLength(data: seq<byte>, limit: nat)
    requires limit > 0
    ensures |Split(data, limit)| == ChunkCount(|data|, limit)
    decreases |data|
  {
    ChunkCountStep(|data|, limit);
    if data != [] { SplitLength(data[Min(|data|, limit)..], limit); }
  }

  /** `split_equalisation_tiff`: fills a list builder of the size it was initialised with. */
  method SplitEqualisationTiff(builder: array<seq<byte>>, raw: seq<byte>, limit: nat)
    requires limit > 0 && builder.Length <= ChunkCount(|raw|, limit)
    modifies builder
    ensures builder.Length <= |Split(raw, limit)|
    ensures builder[..] == Split(raw, limit)[..builder.Length]
  {
    SplitLength(raw, limit);
    var i := 0;
    while i < builder.Length
      invariant 0 <= i <= builder.Length
      invariant forall k | 0 <= k < i :: builder[k] == Split(raw, limit)[k]
    {
      ChunkAt(raw, limit, i);
      var chunkSize := Min(|raw| - i * limit, limit);
      var start := i * limit;
      builder[i] := raw[start..start + chunkSize];
      i := i + 1;
    }
  }

  /** The chunk list `WorkerEqualisationResultCommand::command_data` sends. */
  method EncodeTiff(raw: seq<byte>, limit: nat) returns (chunks: seq<seq<byte>>)
    requires limit > 0
    ensures chunks == Split(raw, limit)
    ensures Join(chunks) == raw && Canonical(chunks, limit)
  {
    var quot, rem := |raw| / limit, |raw| % limit;
    var chunkCount := quot + if rem == 0 then 0 else 1;
    SplitLength(raw, limit);
    var builder := new seq<byte>[chunkCount](_ => []);
    SplitEqualisationTiff(builder, raw, limit);
    chunks := builder[..];
    JoinSplit(raw, limit);
  }

  lemma {:induction false} JoinSnoc(chunks: seq<seq<byte>>, last: seq<byte>)
    ensures Join(chunks + [last]) == Join(chunks) + last
    decreases |chunks|
  {
    if chunks == [] {
      assert chunks + [last] == [last];
      assert [last][1..] == [];
    } else {
      assert (chunks + [last])[1..] == chunks[1..] + [last];
      JoinSnoc(chunks[1..], last);
    }
  }

  /**
   The two loops of `WorkerEqualisationResultCommand::from_data`: size the buffer, then copy
   every chunk to its offset.
   */
  method DecodeTiff(chunks: seq<seq<byte>>) returns (tiff: seq<byte>)
    ensures tiff == Join(chunks)
  {
    var total := 0;
    for i := 0 to |chunks|
      invariant total == |Join(chunks[..i])|
    {
      assert chunks[..i + 1] == chunks[..i] + [chunks[i]];
      JoinSnoc(chunks[..i], chunks[i]);
      total := total + |chunks[i]|;
    }
    assert chunks[..|chunks|] == chunks;
    var buffer := new byte[total](_ => 0);
    var cumulative := 0;
    for i := 0 to |chunks|
      invariant cumulative == |Join(chunks[..i])| <= total
      invariant buffer[..cumulative] == Join(chunks[..i])
    {
      var before := cumulative;
      assert chunks[..i + 1] == chunks[..i] + [chunks[i]];
      JoinSnoc(chunks[..i], chunks[i]);
      JoinPrefix(chunks, i + 1);
      cumulative := cumulative + |chunks[i]|;
      forall k | 0 <= k < |chunks[i]| {
        buffer[before + k] := chunks[i][k];
      }
      assert buffer[..before] == Join(chunks[..i]);
      assert buffer[before..cumulative] == chunks[i];
      assert buffer[..cumulative] == buffer[..before] + buffer[before..cumulative];
    }
    assert cumulative == total;
    tiff := buffer[..];
  }

  lemma {:induction false} JoinPrefix(chunks: seq<seq<byte>>, i: nat)
    requires i <= |chunks|
    ensures |Join(chunks[..i])| <= |Join(chunks)|
    decreases |chunks| - i
  {
    if i == |chunks| {
      assert chunks[..i] == chunks;
    } else {
      assert chunks[..i + 1] == chunks[..i] + [chunks[i]];
      JoinSnoc(chunks[..i], chunks[i]);
      JoinPrefix(chunks, i + 1);
    }
  }

  // ---------------------------------------------------------------- commands

  function EncodeJob(job: Job): ProtocolJob {
    ProtocolJob(job.Tag(),
                match job
                case HistogramJob(f) => HistogramJobData(f)
                case EqualisationJob(f, m) => EqualisationJobData(f, m))
  }

  function EncodeResult(result: JobResult, limit: nat): ProtocolResult
    requires limit > 0
  {
    ProtocolResult(result.Tag(),
                   match result
                   case HistogramResult(f, h) => HistogramResultData(f, h)
                   case EqualisationResult(f, t) => EqualisationResultData(f, Split(t, limit)))
  }

  /** `WorkerCommand::add_to_message` with the `command_data` of each class. */
  function Encode(command: Command, limit: nat): ProtocolCommand
    requires limit > 0
  {
    match command
    case Helo(c) => ProtocolCommand("HELO", HeloData(c))
    case Ehlo => ProtocolCommand("EHLO", EhloData)
    case JobCommand(j) => ProtocolCommand("JOB", JobMessage(EncodeJob(j)))
    case ResultCommand(r) => ProtocolCommand("RESULT", ResultMessage(EncodeResult(r, limit)))
    case Heartbeat(k) => ProtocolCommand("HEARTBEAT", HeartbeatData(k))
    case Bye => ProtocolCommand("BYE", ByeData)
  }

  /** The first `HISTOGRAM_SEGMENTS` entries are read, however long the list is. */
  function DecodeJob(wire: ProtocolJob): Decoded<Command> {
    match wire.data
    case HistogramJobData(f) =>
      if wire.jobType != "HISTOGRAM" then AssertionFailed else Ok(JobCommand(HistogramJob(f)))
    case EqualisationJobData(f, m) =>
      if wire.jobType != "EQUALISATION" then AssertionFailed
      else if |m| < HISTOGRAM_SEGMENTS then OutOfRange
      else Ok(JobCommand(EqualisationJob(f, m[..HISTOGRAM_SEGMENTS])))
    case UnknownJobData => Null
  }

  function DecodeResult(wire: ProtocolResult): Decoded<Command> {
    match wire.data
    case HistogramResultData(f, h) =>
      if wire.resultType != "HISTOGRAM" || |h| != HISTOGRAM_SEGMENTS then AssertionFailed
      else Ok(ResultCommand(HistogramResult(f, h)))
    case EqualisationResultData(f, chunks) =>
      if wire.resultType != "EQUALISATION" then AssertionFailed
      else Ok(ResultCommand(EqualisationResult(f, Join(chunks))))
    case UnknownResultData => Null
  }

  /** `WorkerCommand::from_serialised_string` */
  function Decode(wire: ProtocolCommand): Decoded<Command> {
    match wire.data
    case HeloData(c) => if wire.command != "HELO" then AssertionFailed else Ok(Helo(c))
    case EhloData => if wire.command != "EHLO" then AssertionFailed else Ok(Ehlo)
    case JobMessage(j) => if wire.command != "JOB" then AssertionFailed else DecodeJob(j)
    case ResultMessage(r) => if wire.command != "RESULT" then AssertionFailed else DecodeResult(r)
    case HeartbeatData(k) => if wire.command != "HEARTBEAT" then AssertionFailed else Ok(Heartbeat(k))
    case ByeData => if wire.command != "BYE" then AssertionFailed else Ok(Bye)
    case UnknownCommandData => Null
  }

  /** Every command survives the wire, whatever its payload and the size of its TIFF data. */
  lemma DecodeEncode(command: Command, limit: nat)
    requires limit > 0
    ensures Decode(Encode(command, limit)) == Ok(command)
  {
    match command
    case Helo(_) =>
    case Ehlo =>
    case Heartbeat(_) =>
    case Bye =>
    case JobCommand(job) =>
      match job {
        case HistogramJob(_) =>
        case EqualisationJob(_, m) => assert m[..HISTOGRAM_SEGMENTS] == m;
      }
    case ResultCommand(result) =>
      match result {
        case HistogramResult(_, _) =>
        case EqualisationResult(_, tiff) => JoinSplit(tiff, limit);
      }
  }

  /** The tag a message must carry for what it contains. */
  function TagFor(data: CommandData): string {
    match data
    case HeloData(_) => "HELO"
    case EhloData => "EHLO"
    case JobMessage(_) => "JOB"
    case ResultMessage(_) => "RESULT"
    case HeartbeatData(_) => "HEARTBEAT"
    case ByeData => "BYE"
    case UnknownCommandData => ""
  }

  /** The payload is known, and so is what it contains. */
  predicate KnownPayload(data: CommandData) {
    match data
    case JobMessage(j) => !j.data.UnknownJobData?
    case ResultMessage(r) => !r.data.UnknownResultData?
    case UnknownCommandData => false
    case _ => true
  }

  /** A job or result is tagged as what it is. */
  predicate InnerTagFits(data: CommandData) {
    match data
    case JobMessage(j) => j.jobType == if j.data.HistogramJobData? then "HISTOGRAM" else "EQUALISATION"
    case ResultMessage(r) => r.resultType == if r.data.HistogramResultData? then "HISTOGRAM" else "EQUALISATION"
    case _ => true
  }

  /** Mappings have 1024 entries or more, histograms exactly 1024. */
  predicate LongEnough(data: CommandData) {
    match data
    case JobMessage(j) => j.data.EqualisationJobData? ==> |j.data.histogramMapping| >= 1024
    case ResultMessage(r) => r.data.HistogramResultData? ==> |r.data.histogram| == 1024
    case _ => true
  }

  /**
   What becomes of any message: an unknown payload yields no command, a wrong tag or a histogram
   of another length fails an assertion, a short mapping is read past its end, and all others
   are decoded.
   */
  lemma DecodesExactly(wire: ProtocolCommand)
    ensures Decode(wire).Ok? <==>
            && KnownPayload(wire.data) && wire.command == TagFor(wire.data)
            && InnerTagFits(wire.data) && LongEnough(wire.data)
    ensures Decode(wire) == Null <==>
            !KnownPayload(wire.data)
            && (wire.command == TagFor(wire.data) || wire.data.UnknownCommandData?)
    ensures Decode(wire) == OutOfRange <==>
            && wire.data.JobMessage? && wire.data.job.data.EqualisationJobData? && wire.command == "JOB"
            && wire.data.job.jobType == "EQUALISATION" && |wire.data.job.data.histogramMapping| < 1024
  {
    assert HISTOGRAM_SEGMENTS == 1024;
  }

  /** The tags the encoder writes are the ones the decoder asks for. */
  lemma EncodedIsDecodable(command: Command, limit: nat)
    requires limit > 0
    ensures var wire := Encode(command, limit);
            && wire.command == TagFor(wire.data) && KnownPayload(wire.data)
            && InnerTagFits(wire.data) && LongEnough(wire.data)
  {
    DecodeEncode(command, limit);
    DecodesExactly(Encode(command, limit));
  }

  /**
   What is read from a message that is decoded: every number, name and list as it stands, of a
   mapping the first 1024 entries, and the chunks of a TIFF file one after another.
   */
  lemma PayloadIsRead(filename: string, h: Histogram, tail: seq<real>, a: seq<seq<byte>>, last: seq<byte>)
    ensures forall c :: Decode(ProtocolCommand("HELO", HeloData(c))) == Ok(Helo(c))
    ensures forall k :: Decode(ProtocolCommand("HEARTBEAT", HeartbeatData(k))) == Ok(Heartbeat(k))
    ensures Decode(ProtocolCommand("JOB", JobMessage(ProtocolJob("HISTOGRAM", HistogramJobData(filename)))))
         == Ok(JobCommand(HistogramJob(filename)))
    ensures Decode(ProtocolCommand("JOB", JobMessage(
                     ProtocolJob("EQUALISATION", EqualisationJobData(filename, h + tail)))))
         == Ok(JobCommand(EqualisationJob(filename, h)))
    ensures Decode(ProtocolCommand("RESULT", ResultMessage(
                     ProtocolResult("HISTOGRAM", HistogramResultData(filename, h)))))
         == Ok(ResultCommand(HistogramResult(filename, h)))
    ensures Decode(ProtocolCommand("RESULT", ResultMessage(
                     ProtocolResult("EQUALISATION", EqualisationResultData(filename, a + [last])))))
         == Ok(ResultCommand(EqualisationResult(filename, Join(a) + last)))
  {
    assert (h + tail)[..1024] == h;
    JoinSnoc(a, last);
  }

  /** The messages this program writes: exact list lengths and canonical chunks. */
  predicate Written(wire: ProtocolCommand, limit: nat) {
    match wire.data
    case JobMessage(j) =>
      j.data.EqualisationJobData? ==> |j.data.histogramMapping| == 1024
    case ResultMessage(r) =>
      r.data.EqualisationResultData? ==> Canonical(r.data.tiffResult, limit)
    case _ => true
  }

  /**
   A message that decodes re-encodes to itself exactly when its lists have the lengths the
   encoder gives them: decoding loses the tail of an over-long mapping and the chunk borders.
   */
  lemma EncodeDecode(wire: ProtocolCommand, limit: nat)
    requires limit > 0 && Decode(wire).Ok?
    ensures Encode(Decode(wire).value, limit) == wire <==> Written(wire, limit)
  {
    match wire.data
    case JobMessage(j) =>
      if j.data.EqualisationJobData? {
        var m := j.data.histogramMapping;
        if |m| == HISTOGRAM_SEGMENTS { assert m[..HISTOGRAM_SEGMENTS] == m; }
      }
    case ResultMessage(r) =>
      if r.data.EqualisationResultData? {
        var chunks := r.data.tiffResult;
        if Canonical(chunks, limit) { SplitJoin(chunks, limit); }
        JoinSplit(Join(chunks), limit);
      }
    case _ =>
  }
}
