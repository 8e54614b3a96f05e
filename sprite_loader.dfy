/** The sprite decoder as a sequence of reads from a `Reader`, each part proved equal to the
    declarative decoding in module Sprite. */
module SpriteLoader {
  import opened Wrappers
  import opened Bytes
  import opened BinaryReader
  import opened Colormap
  import opened Sprite

  /** Reads origin, width and height, rejects negative dimensions, then reads width * height pixels. */
  method TryLoadSingleSpriteFrame(reader: Reader) returns (r: Option<SingleSpriteFrame>)
    requires reader.Valid()
    modifies reader
    ensures reader.Valid()
    ensures SingleFrameAt(reader.data, old(reader.pos)) == if r.Some? then Some((r.value, reader.pos)) else None
  {
    var originX := reader.ReadInt32();
    if originX.None? { return None; }
    var originY := reader.ReadInt32();
    if originY.None? { return None; }
    var width := reader.ReadInt32();
    if width.None? { return None; }
    var height := reader.ReadInt32();
    if height.None? { return None; }
    if width.value < 0 || height.value < 0 { return None; }
    var pixels := reader.ReadBytes(width.value * height.value);
    if pixels.None? { return None; }
    return Some(SingleSpriteFrame(Point(originX.value, originY.value), width.value, height.value, pixels.value));
  }

  /** Reads a group's display intervals, failing on the first one that is not greater than zero. */
  method ReadIntervals(reader: Reader, count: nat) returns (r: Option<seq<Float32>>)
    requires reader.Valid()
    modifies reader
    ensures reader.Valid()
    ensures r.Some? <==> IntervalsOk(reader.data, old(reader.pos), count)
    ensures r.Some? ==> r.value == IntervalsAt(reader.data, old(reader.pos), count)
                        && reader.pos == old(reader.pos) + 4 * count
  {
    ghost var start := reader.pos;
    var intervals: seq<Float32> := [];
    for i := 0 to count
      invariant reader.Valid() && reader.pos == start + 4 * i
      invariant IntervalsOk(reader.data, start, i)
      invariant intervals == IntervalsAt(reader.data, start, i)
    {
      var interval := reader.ReadFloat();
      if interval.None? {
        assert start + 4 * count >= start + 4 * (i + 1);
        return None;
      }
      if AtMostZero(interval.value) {
        assert interval.value == FloatAt(reader.data, start + 4 * i);
        return None;
      }
      intervals := intervals + [interval.value];
    }
    return Some(intervals);
  }

  /** Reads count single frames back to back. */
  method ReadFrames(reader: Reader, count: nat) returns (r: Option<seq<SingleSpriteFrame>>)
    requires reader.Valid()
    modifies reader
    ensures reader.Valid()
    ensures FramesUpTo(reader.data, old(reader.pos), count)
            == if r.Some? then Some((r.value, reader.pos)) else None
  {
    ghost var start := reader.pos;
    var frames: seq<SingleSpriteFrame> := [];
    for i := 0 to count
      invariant reader.Valid()
      invariant FramesUpTo(reader.data, start, i) == Some((frames, reader.pos))
    {
      var frame := TryLoadSingleSpriteFrame(reader);
      if frame.None? {
        FailedFrameFailsRun(reader.data, start, i + 1, count);
        return None;
      }
      frames := frames + [frame.value];
    }
    return Some(frames);
  }

  /** Reads a group's frame count, its intervals and its frames. */
  method TryLoadSpriteGroup(reader: Reader) returns (r: Option<SpriteGroup>)
    requires reader.Valid()
    modifies reader
    ensures reader.Valid()
    ensures GroupAt(reader.data, old(reader.pos)) == if r.Some? then Some((r.value, reader.pos)) else None
  {
    var numFrames := reader.ReadInt32();
    if numFrames.None? { return None; }
    if numFrames.value < 0 { return None; }
    var intervals := ReadIntervals(reader, numFrames.value);
    if intervals.None? { return None; }
    var frames := ReadFrames(reader, numFrames.value);
    if frames.None? { return None; }
    return Some(SpriteGroup(intervals.value, frames.value));
  }

  /** Reads one frame record: its tag, then a single frame or a group. */
  method ReadFrameRecord(reader: Reader) returns (r: Option<FrameRecord>)
    requires reader.Valid()
    modifies reader
    ensures reader.Valid()
    ensures RecordAt(reader.data, old(reader.pos)) == if r.Some? then Some((r.value, reader.pos)) else None
  {
    var frameType := reader.ReadInt32();
    if frameType.None? { return None; }
    if frameType.value == SingleFrameTag {
      var frame := TryLoadSingleSpriteFrame(reader);
      if frame.None? { return None; }
      return Some(Single(frame.value));
    } else {
      var group := TryLoadSpriteGroup(reader);
      if group.None? { return None; }
      return Some(Group(group.value));
    }
  }

  /** Reads the identification, the version and the header fields, in file order. */
  method ReadSpriteHeader(reader: Reader) returns (r: Option<SpriteHeader>)
    requires reader.Valid() && reader.pos == 0
    modifies reader
    ensures reader.Valid()
    ensures r == HeaderAt(reader.data)
    ensures r.Some? ==> reader.pos == SpriteHeaderSize
  {
    var identification := reader.ReadFixedUTF8String(4);
    if identification.None? || identification.value != "IDSP" { return None; }
    var version := reader.ReadInt32();
    if version.None? || version.value != SpriteVersion { return None; }
    var spriteType := reader.ReadInt32();
    if spriteType.None? { return None; }
    var textureFormat := reader.ReadInt32();
    if textureFormat.None? { return None; }
    var boundingRadius := reader.ReadFloat();
    if boundingRadius.None? { return None; }
    var width := reader.ReadInt32();
    if width.None? { return None; }
    var height := reader.ReadInt32();
    if height.None? { return None; }
    var numFrames := reader.ReadInt32();
    if numFrames.None? { return None; }
    var beamLength := reader.ReadFloat();
    if beamLength.None? { return None; }
    var syncType := reader.ReadInt32();
    if syncType.None? { return None; }
    return Some(SpriteHeader(spriteType.value, textureFormat.value, boundingRadius.value, width.value,
                             height.value, numFrames.value, beamLength.value, syncType.value));
  }

  /** Reads count frame records in a row, keeping the single frames and dropping the groups. */
  method ReadFrameRecords(reader: Reader, count: nat) returns (r: Option<seq<SingleSpriteFrame>>)
    requires reader.Valid()
    modifies reader
    ensures r.Some? <==> RecordsUpTo(reader.data, old(reader.pos), count).Some?
    ensures r.Some? ==> r.value == Singles(RecordsUpTo(reader.data, old(reader.pos), count).value.0)
  {
    ghost var start := reader.pos;
    var frames: seq<SingleSpriteFrame> := [];
    ghost var records: seq<FrameRecord> := [];
    for i := 0 to count
      invariant reader.Valid()
      invariant RecordsUpTo(reader.data, start, i) == Some((records, reader.pos))
      invariant frames == Singles(records)
    {
      var record := ReadFrameRecord(reader);
      if record.None? {
        FailedRecordFailsRun(reader.data, start, i + 1, count);
        return None;
      }
      assert (records + [record.value])[..|records|] == records;
      records := records + [record.value];
      if record.value.Single? {
        frames := frames + [record.value.frame];
      }
    }
    return Some(frames);
  }

  /** Decodes a whole sprite file held in memory. Group records are read and then discarded. */
  method TryLoadSpriteFile(data: seq<byte>) returns (r: Option<SpriteFile>)
    ensures r == SpriteSpec(data)
  {
    var reader := new Reader(data);
    var header := ReadSpriteHeader(reader);
    if header.None? { return None; }
    var h := header.value;
    if !IsSpriteType(h.spriteType) || !IsTextureFormat(h.textureFormat) || !IsSyncType(h.syncType) {
      return None;
    }
    if LessThanZero(h.boundingRadius) { return None; }
    if h.width < 0 || h.height < 0 { return None; }
    if h.numFrames < 0 { return None; }
    assert HeaderValid(h);

    var colorCount := reader.ReadInt16();
    if colorCount.None? || colorCount.value != ColormapColorCount { return None; }
    var colormap := ReadColormap(reader);
    if colormap.None? { return None; }

    assert reader.pos == FramesPos;
    var frames :- ReadFrameRecords(reader, h.numFrames);
    return Some(SpriteFile(h.spriteType, h.textureFormat, h.boundingRadius, h.width, h.height,
                           h.beamLength, h.syncType, colormap.value, frames));
  }
}
