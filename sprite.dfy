/** The Half-Life sprite format (IDSP, version 2): a fixed header, a 256-colour palette and a
    list of frame records, each either a single frame or a group of frames. Offsets below are
    absolute positions in the file buffer. */
module Sprite {
  import opened Wrappers
  import opened Bytes
  import opened BinaryReader
  import opened Colormap

  const SpriteVersion: int := 2

  // SpriteType enumerators.
  const VpParallelUpright: int := 0
  const FacingUpright: int := 1
  const VpParallel: int := 2
  const Oriented: int := 3
  const VpParallelOriented: int := 4

  // SpriteTextureFormat enumerators.
  const Normal: int := 0
  const Additive: int := 1
  const IndexAlpha: int := 2
  const AlphaTest: int := 3

  // SyncType enumerators.
  const Sync: int := 0
  const Rand: int := 1

  /** The frame record tag for a single frame; every other value introduces a group. */
  const SingleFrameTag: int := 0

  /** Bytes from the start of the file to the end of the sync type field. */
  const SpriteHeaderSize: nat := 40
  /** Position of the 16-bit colour count, followed by the palette. */
  const ColorCountPos: nat := 40
  const ColormapPos: nat := 42
  /** Position of the first frame record. */
  const FramesPos: nat := ColormapPos + ColormapSize

  /** Bytes of a single frame before its pixels: origin x and y, width, height. */
  const FrameHeaderSize: nat := 16

  predicate IsSpriteType(t: int) { VpParallelUpright <= t <= VpParallelOriented }
  predicate IsTextureFormat(f: int) { Normal <= f <= AlphaTest }
  predicate IsSyncType(s: int) { Sync <= s <= Rand }

  /** The name of a sprite type; values outside the enumeration share VP_PARALLEL's name. */
  function SpriteTypeToString(spriteType: int): (name: string)
    ensures !IsSpriteType(spriteType) ==> name == "vp_parallel"
  {
    if spriteType == VpParallelUpright then "vp_parallel_upright"
    else if spriteType == FacingUpright then "facing_upright"
    else if spriteType == Oriented then "oriented"
    else if spriteType == VpParallelOriented then "vp_parallel_oriented"
    else "vp_parallel"
  }

  /** The name of a texture format; values outside the enumeration share NORMAL's name. */
  function SpriteTextureFormatToString(format: int): (name: string)
    ensures !IsTextureFormat(format) ==> name == "normal"
  {
    if format == Additive then "additive"
    else if format == IndexAlpha then "indexalpha"
    else if format == AlphaTest then "alphatest"
    else "normal"
  }

  /** Every sprite type has its own name, and a name identifies the sprite type. */
  lemma SpriteTypeNamesDistinct(a: int, b: int)
    requires IsSpriteType(a) && IsSpriteType(b)
    ensures SpriteTypeToString(a) == SpriteTypeToString(b) <==> a == b
  {
    var names := ["vp_parallel_upright", "facing_upright", "vp_parallel", "oriented",
                  "vp_parallel_oriented"];
    assert SpriteTypeToString(a) == names[a] && SpriteTypeToString(b) == names[b];
  }

  /** Every texture format has its own name, and a name identifies the texture format. */
  lemma TextureFormatNamesDistinct(a: int, b: int)
    requires IsTextureFormat(a) && IsTextureFormat(b)
    ensures SpriteTextureFormatToString(a) == SpriteTextureFormatToString(b) <==> a == b
  {
    var names := ["normal", "additive", "indexalpha", "alphatest"];
    assert SpriteTextureFormatToString(a) == names[a] && SpriteTextureFormatToString(b) == names[b];
  }

  datatype Point = Point(x: int, y: int)

  datatype SingleSpriteFrame = SingleSpriteFrame(origin: Point, width: int, height: int, pixels: seq<byte>)

  datatype SpriteGroup = SpriteGroup(intervals: seq<Float32>, frames: seq<SingleSpriteFrame>)

  /** One entry of the frame list as stored; only single frames are kept in the decoded sprite. */
  datatype FrameRecord = Single(frame: SingleSpriteFrame) | Group(group: SpriteGroup)

  datatype SpriteFile = SpriteFile(
    spriteType: int,
    textureFormat: int,
    boundingRadius: Float32,
    width: int,
    height: int,
    beamLength: Float32,
    syncType: int,
    colormap: seq<Rgb>,
    frames: seq<SingleSpriteFrame>)

  // ---------------------------------------------------------------------------------------------
  // Frames

  /** The single frame stored at p and the position just past it. */
  function SingleFrameAt(data: seq<byte>, p: nat): (r: Option<(SingleSpriteFrame, nat)>)
    ensures r.Some? ==> r.value.1 == p + FrameHeaderSize + |r.value.0.pixels|
    ensures r.Some? ==> r.value.1 <= |data|
  {
    if p + FrameHeaderSize > |data| then None
    else
      var width := IntAt(data, p + 8, 4);
      var height := IntAt(data, p + 12, 4);
      if width < 0 || height < 0 then None
      else
        var pixels :- ReadAt(data, p + FrameHeaderSize, width * height);
        Some((SingleSpriteFrame(Point(IntAt(data, p, 4), IntAt(data, p + 4, 4)), width, height, pixels),
              p + FrameHeaderSize + width * height))
  }

  /** The first n single frames stored back to back from p, and the position just past them. */
  function FramesUpTo(data: seq<byte>, p: nat, n: nat): (r: Option<(seq<SingleSpriteFrame>, nat)>)
    ensures r.Some? ==> |r.value.0| == n && p <= r.value.1
  {
    if n == 0 then Some(([], p))
    else
      var (frames, q) :- FramesUpTo(data, p, n - 1);
      var (frame, next) :- SingleFrameAt(data, q);
      Some((frames + [frame], next))
  }

  /** The group's display intervals: n floats at p, each of which must compare greater than zero. */
  predicate IntervalsOk(data: seq<byte>, p: nat, n: nat) {
    p + 4 * n <= |data| && forall i | 0 <= i < n :: !AtMostZero(FloatAt(data, p + 4 * i))
  }

  function IntervalsAt(data: seq<byte>, p: nat, n: nat): (intervals: seq<Float32>)
    requires p + 4 * n <= |data|
    ensures |intervals| == n
  {
    seq(n, i requires 0 <= i < n => FloatAt(data, p + 4 * i))
  }

  /** The group stored at p (frame count, intervals, frames) and the position just past it. */
  function GroupAt(data: seq<byte>, p: nat): (r: Option<(SpriteGroup, nat)>)
  {
    if !CanRead(data, p, 4) then None
    else
      var count := IntAt(data, p, 4);
      if count < 0 || !IntervalsOk(data, p + 4, count) then None
      else
        var (frames, next) :- FramesUpTo(data, p + 4 + 4 * count, count);
        Some((SpriteGroup(IntervalsAt(data, p + 4, count), frames), next))
  }

  /** The frame record at p: a 32-bit tag, then a single frame (tag 0) or a group. */
  function RecordAt(data: seq<byte>, p: nat): (r: Option<(FrameRecord, nat)>)
  {
    if !CanRead(data, p, 4) then None
    else if IntAt(data, p, 4) == SingleFrameTag then
      var (frame, next) :- SingleFrameAt(data, p + 4);
      Some((Single(frame), next))
    else
      var (group, next) :- GroupAt(data, p + 4);
      Some((Group(group), next))
  }

  /** The first n frame records from p, and the position just past them. */
  function RecordsUpTo(data: seq<byte>, p: nat, n: nat): (r: Option<(seq<FrameRecord>, nat)>)
    ensures r.Some? ==> |r.value.0| == n
  {
    if n == 0 then Some(([], p))
    else
      var (records, q) :- RecordsUpTo(data, p, n - 1);
      var (record, next) :- RecordAt(data, q);
      Some((records + [record], next))
  }

  /** The single frames among the records, in order. */
  function Singles(records: seq<FrameRecord>): seq<SingleSpriteFrame>
  {
    if records == [] then []
    else Singles(records[..|records| - 1])
         + (var last := records[|records| - 1]; if last.Single? then [last.frame] else [])
  }

  // ---------------------------------------------------------------------------------------------
  // Whole file

  datatype SpriteHeader = SpriteHeader(
    spriteType: int, textureFormat: int, boundingRadius: Float32, width: int, height: int,
    numFrames: int, beamLength: Float32, syncType: int)

  /** The identification "IDSP", the version 2 and the header fields after them. */
  function HeaderAt(data: seq<byte>): (r: Option<SpriteHeader>)
    ensures r.Some? ==> SpriteHeaderSize <= |data|
  {
    if !CanRead(data, 0, 4) || Chars(UntilNul(data[0..4])) != "IDSP" then None
    else if !CanRead(data, 4, 4) || IntAt(data, 4, 4) != SpriteVersion then None
    else if |data| < SpriteHeaderSize then None
    else Some(SpriteHeader(IntAt(data, 8, 4), IntAt(data, 12, 4), FloatAt(data, 16),
                           IntAt(data, 20, 4), IntAt(data, 24, 4), IntAt(data, 28, 4),
                           FloatAt(data, 32), IntAt(data, 36, 4)))
  }

  /** The checks made on the header fields before the palette is read. */
  predicate HeaderValid(h: SpriteHeader) {
    IsSpriteType(h.spriteType) && IsTextureFormat(h.textureFormat) && IsSyncType(h.syncType)
    && !LessThanZero(h.boundingRadius) && h.width >= 0 && h.height >= 0 && h.numFrames >= 0
  }

  /** A sprite file decoded from a whole buffer. */
  function SpriteSpec(data: seq<byte>): Option<SpriteFile>
  {
    var h :- HeaderAt(data);
    if !HeaderValid(h) then None
    else if !CanRead(data, ColorCountPos, 2) || IntAt(data, ColorCountPos, 2) != ColormapColorCount then None
    else if !CanRead(data, ColormapPos, ColormapSize) then None
    else
      var (records, _) :- RecordsUpTo(data, FramesPos, h.numFrames);
      Some(SpriteFile(h.spriteType, h.textureFormat, h.boundingRadius, h.width, h.height,
                      h.beamLength, h.syncType, ColormapAt(data, ColormapPos), Singles(records)))
  }

  // ---------------------------------------------------------------------------------------------
  // Properties

  /** Once the k-th frame fails to decode, every longer run of frames fails too. */
  lemma {:induction false} FailedFrameFailsRun(data: seq<byte>, p: nat, k: nat, n: nat)
    requires k <= n && FramesUpTo(data, p, k).None?
    ensures FramesUpTo(data, p, n).None?
    decreases n
  {
    if n > k {
      FailedFrameFailsRun(data, p, k, n - 1);
      assert FramesUpTo(data, p, n - 1).None?;
    }
  }

  /** Once the k-th frame record fails to decode, every longer run of records fails too. */
  lemma {:induction false} FailedRecordFailsRun(data: seq<byte>, p: nat, k: nat, n: nat)
    requires k <= n && RecordsUpTo(data, p, k).None?
    ensures RecordsUpTo(data, p, n).None?
    decreases n
  {
    if n > k {
      FailedRecordFailsRun(data, p, k, n - 1);
      assert RecordsUpTo(data, p, n - 1).None?;
    }
  }

  /** A decoded frame has non-negative dimensions and exactly width * height pixels. */
  predicate FrameShapeOk(f: SingleSpriteFrame) {
    f.width >= 0 && f.height >= 0 && |f.pixels| == f.width * f.height
  }

  lemma DecodedFrameShape(data: seq<byte>, p: nat)
    requires SingleFrameAt(data, p).Some?
    ensures FrameShapeOk(SingleFrameAt(data, p).value.0)
  {
  }

  lemma {:induction false} DecodedFramesShape(data: seq<byte>, p: nat, n: nat)
    requires FramesUpTo(data, p, n).Some?
    ensures forall f <- FramesUpTo(data, p, n).value.0 :: FrameShapeOk(f)
    decreases n
  {
    if n > 0 {
      var (frames, q) := FramesUpTo(data, p, n - 1).value;
      DecodedFramesShape(data, p, n - 1);
      DecodedFrameShape(data, q);
    }
  }

  /** Every frame kept from a run of records, whether single or inside a group, has a valid shape. */
  predicate RecordShapeOk(r: FrameRecord) {
    match r
    case Single(f) => FrameShapeOk(f)
    case Group(g) => |g.intervals| == |g.frames| && forall f <- g.frames :: FrameShapeOk(f)
  }

  lemma DecodedRecordShape(data: seq<byte>, p: nat)
    requires RecordAt(data, p).Some?
    ensures RecordShapeOk(RecordAt(data, p).value.0)
  {
    if IntAt(data, p, 4) == SingleFrameTag {
      DecodedFrameShape(data, p + 4);
    } else {
      var count := IntAt(data, p + 4, 4);
      DecodedFramesShape(data, p + 8 + 4 * count, count);
    }
  }

  lemma {:induction false} DecodedRecordsShape(data: seq<byte>, p: nat, n: nat)
    requires RecordsUpTo(data, p, n).Some?
    ensures forall r <- RecordsUpTo(data, p, n).value.0 :: RecordShapeOk(r)
    decreases n
  {
    if n > 0 {
      var (records, q) := RecordsUpTo(data, p, n - 1).value;
      DecodedRecordsShape(data, p, n - 1);
      DecodedRecordShape(data, q);
    }
  }

  /** The kept frames come from single records only: at most one per record, one per record when
      there are no groups, and each is the frame of some single record. */
  lemma {:induction false} SinglesAreSingleRecords(records: seq<FrameRecord>)
    ensures |Singles(records)| <= |records|
    ensures (forall r <- records :: r.Single?) ==> Singles(records) == seq(|records|, i requires 0 <= i < |records| => records[i].frame)
    ensures forall f <- Singles(records) :: exists r <- records :: r == Single(f)
    decreases |records|
  {
    if records != [] {
      var init := records[..|records| - 1];
      var last := records[|records| - 1];
      SinglesAreSingleRecords(init);
      assert forall r <- init :: r in records;
      assert Singles(records) == Singles(init) + if last.Single? then [last.frame] else [];
      forall f <- Singles(records) ensures exists r <- records :: r == Single(f) {
        if f !in Singles(init) {
          assert last == Single(f) && last in records;
        }
      }
      if forall r <- records :: r.Single? {
        assert forall r <- init :: r.Single?;
      }
    }
  }

  /** The positions of the single-frame records: an independent description of what is kept. */
  function SingleIndexes(records: seq<FrameRecord>): set<nat> {
    set i: nat | i < |records| && records[i].Single?
  }

  /** Appending a record adds its position exactly when it is a single frame. */
  lemma SingleIndexesAppend(init: seq<FrameRecord>, last: FrameRecord)
    ensures |SingleIndexes(init + [last])| == |SingleIndexes(init)| + if last.Single? then 1 else 0
  {
    var records := init + [last];
    assert |init| !in SingleIndexes(init);
    if last.Single? {
      assert SingleIndexes(records) == SingleIndexes(init) + {|init|};
    } else {
      assert SingleIndexes(records) == SingleIndexes(init);
    }
  }

  /** Every single-frame record contributes its frame, and only those do: the kept frames are as
      many as the single records, and the frame of the record at i comes after the frames of the
      single records before it. */
  lemma {:induction false} SinglesInRecordOrder(records: seq<FrameRecord>)
    ensures |Singles(records)| == |SingleIndexes(records)|
    ensures forall i | 0 <= i < |records| && records[i].Single? ::
              |SingleIndexes(records[..i])| < |Singles(records)|
              && Singles(records)[|SingleIndexes(records[..i])|] == records[i].frame
    decreases |records|
  {
    if records != [] {
      var init := records[..|records| - 1];
      var last := records[|records| - 1];
      assert records == init + [last];
      SinglesInRecordOrder(init);
      SingleIndexesAppend(init, last);
      assert Singles(records) == Singles(init) + if last.Single? then [last.frame] else [];
      forall i | 0 <= i < |records| && records[i].Single?
        ensures |SingleIndexes(records[..i])| < |Singles(records)|
        ensures Singles(records)[|SingleIndexes(records[..i])|] == records[i].frame
      {
        if i < |init| {
          assert records[..i] == init[..i] && records[i] == init[i];
        } else {
          assert records[..i] == init;
        }
      }
    }
  }

  /** What a successful decode guarantees about the header and the frames. */
  lemma {:induction false} DecodedSprite(data: seq<byte>)
    requires SpriteSpec(data).Some?
    ensures var s := SpriteSpec(data).value;
      && CanRead(data, 0, 4) && Chars(UntilNul(data[0..4])) == "IDSP"
      && IntAt(data, 4, 4) == SpriteVersion
      && IsSpriteType(s.spriteType) && IsTextureFormat(s.textureFormat) && IsSyncType(s.syncType)
      && !LessThanZero(s.boundingRadius) && s.width >= 0 && s.height >= 0
      && |s.colormap| == ColormapColorCount
      && |s.frames| <= IntAt(data, 28, 4)
      && forall f <- s.frames :: FrameShapeOk(f)
    ensures IntAt(data, 28, 4) >= 0 && RecordsUpTo(data, FramesPos, IntAt(data, 28, 4) as nat).Some?
    ensures var s := SpriteSpec(data).value;
      var records := RecordsUpTo(data, FramesPos, IntAt(data, 28, 4) as nat).value.0;
      && |records| == IntAt(data, 28, 4)
      && |s.frames| == |SingleIndexes(records)|
      && forall i | 0 <= i < |records| && records[i].Single? ::
           |SingleIndexes(records[..i])| < |s.frames| && s.frames[|SingleIndexes(records[..i])|] == records[i].frame
  {
    var h := HeaderAt(data).value;
    var (records, _) := RecordsUpTo(data, FramesPos, h.numFrames).value;
    SinglesAreSingleRecords(records);
    SinglesInRecordOrder(records);
    DecodedRecordsShape(data, FramesPos, h.numFrames);
    forall f <- Singles(records) ensures FrameShapeOk(f) {
      var r :| r in records && r == Single(f);
      assert RecordShapeOk(r);
    }
  }
}
