/** The persistent and in-memory shape of one journal stream (log/JournalTypes.h, log/Journal.h). */
module JournalTypes {
  import opened Wrappers
  import opened JournalCursor

  datatype Stream = Logs | Events | Data

  const MAX_SEGMENTS := 64
  const ROTATE_BYTES := 65536

  datatype SegmentRecord = SegmentRecord(segmentId: nat, oldestSeq: nat, newestSeq: nat, sizeBytes: nat, closedAt: nat)

  /** The index file. */
  datatype Index = Index(cursor: Cursor, segments: seq<SegmentRecord>, openBytes: nat)

  /** What a reboot finds: segment files by id and the last index renamed into place. */
  datatype Flash = Flash(files: map<nat, bytes>, index: Option<Index>)

  /**
   * The append handle of the open segment. While it is open only the first
   * `synced` bytes of the file are certain to survive a power cut.
   */
  datatype Handle = Closed | Writing(synced: nat)

  function Content(files: map<nat, bytes>, id: nat): bytes { if id in files then files[id] else [] }

  datatype StreamState = StreamState(cursor: Cursor, segments: seq<SegmentRecord>, openBytes: nat,
                                     handle: Handle, flash: Flash)
  {
    function Open(): SegmentRecord
      requires |segments| > 0
    {
      segments[|segments| - 1]
    }

    function OpenContent(): bytes
      requires |segments| > 0
    {
      Content(flash.files, Open().segmentId)
    }

    /** How much of the open file a power cut cannot take. */
    function Durable(): nat
      requires |segments| > 0
    {
      match handle
      case Closed => |OpenContent()|
      case Writing(synced) => synced
    }

    function WithOpen(g: SegmentRecord): StreamState
      requires |segments| > 0
    {
      this.(segments := segments[|segments| - 1 := g])
    }

    function WithFile(id: nat, content: bytes): StreamState {
      this.(flash := flash.(files := flash.files[id := content]))
    }
  }

  datatype RawBatch = RawBatch(firstSeq: nat, count: nat, frames: bytes)
}
