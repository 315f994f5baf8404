/**
  * `BoundedDaemonLogSink` of evals/src/spawn.ts: a log file that keeps its first bytes and its
  * latest lines, and never grows past a limit.
  *
  * `Feed` is the simple form, one byte at a time; the class appends slices with partial writes.
  */
module LogSink {
  import opened Common

  const NEWLINE: Byte := 10

  /** The sink's limits, and the line that stands for the omitted middle. */
  datatype Config = Config(maxBytes: int, headBytes: int, tailBytes: int, marker: seq<Byte>)

  function Decimal(n: nat): string {
    var digit := ['0', '1', '2', '3', '4', '5', '6', '7', '8', '9'][n % 10];
    if n < 10 then [digit] else Decimal(n / 10) + [digit]
  }

  /** Digits read back as a number. */
  function ReadDecimal(s: string): int {
    if s == [] then 0 else ReadDecimal(s[..|s| - 1]) * 10 + (s[|s| - 1] as int - '0' as int)
  }

  /** The digits of n are digits, read back to n, and start with 0 only for 0 itself. */
  lemma {:induction false} DecimalReadsBack(n: nat)
    ensures Decimal(n) != [] && forall i :: 0 <= i < |Decimal(n)| ==> '0' <= Decimal(n)[i] <= '9'
    ensures ReadDecimal(Decimal(n)) == n && (Decimal(n)[0] == '0' ==> n == 0)
  {
    if n >= 10 {
      DecimalReadsBack(n / 10);
      assert Decimal(n)[..|Decimal(n)| - 1] == Decimal(n / 10);
    } else {
      assert Decimal(n)[..0] == [] && ReadDecimal([]) == 0;
    }
  }

  /** Below 256 every character is its own byte. */
  lemma AsciiKeeps(s: string, i: nat)
    requires i < |s| && s[i] < 256 as char
    ensures Ascii(s)[i] as int == s[i] as int
  {
  }

  function Ascii(s: string): (r: seq<Byte>)
    ensures |r| == |s|
  {
    seq(|s|, i requires 0 <= i < |s| => (s[i] as int % 256) as Byte)
  }

  const MARKER_LEAD := "[eval-log] middle daemon output omitted after reaching the "
  const MARKER_TRAIL := "-byte trial log limit; startup and latest tail retained"

  function Marker(maxBytes: int): seq<Byte> {
    Ascii("\n" + MARKER_LEAD + (if maxBytes < 0 then "-" + Decimal(-maxBytes) else Decimal(maxBytes)) + MARKER_TRAIL
          + "\n")
  }

  lemma AsciiConcat(a: string, b: string)
    ensures Ascii(a + b) == Ascii(a) + Ascii(b)
  {
  }

  /** The marker starts on a new line, ends with one, and names the limit in between. */
  lemma MarkerIsALine(n: nat)
    ensures Marker(n) == [NEWLINE] + Ascii(MARKER_LEAD) + Ascii(Decimal(n)) + Ascii(MARKER_TRAIL) + [NEWLINE]
  {
    hide Decimal;
    AsciiConcat("\n" + MARKER_LEAD + Decimal(n) + MARKER_TRAIL, "\n");
    AsciiConcat("\n" + MARKER_LEAD + Decimal(n), MARKER_TRAIL);
    AsciiConcat("\n" + MARKER_LEAD, Decimal(n));
    AsciiConcat("\n", MARKER_LEAD);
    assert Ascii("\n") == [NEWLINE];
  }

  /** What the constructor checks before it throws. */
  predicate ValidConfig(c: Config) {
    && c.maxBytes > 0 && c.headBytes >= 0 && c.tailBytes >= 0
    && c.headBytes + c.tailBytes + |c.marker| < c.maxBytes
  }

  /** File content, retained startup prefix, and how often the file was compacted. */
  datatype Log = Log(file: seq<Byte>, head: seq<Byte>, compactions: nat)

  function FirstNewline(s: seq<Byte>): (i: int)
    ensures -1 <= i < |s|
    ensures i >= 0 ==> s[i] == NEWLINE
    ensures forall j :: 0 <= j < (if i >= 0 then i else |s|) ==> s[j] != NEWLINE
  {
    if s == [] then -1
    else if s[0] == NEWLINE then 0
    else var i := FirstNewline(s[1..]); if i < 0 then -1 else i + 1
  }

  function TailLength(c: Config, fileLength: nat, headLength: nat): (n: int) {
    Min(c.tailBytes, Max(0, fileLength - headLength))
  }

  /** The last bytes of the file without their first, possibly torn, line. */
  function WholeLines(window: seq<Byte>): seq<Byte> {
    var i := FirstNewline(window);
    if i >= 0 then window[i + 1..] else []
  }

  function Snapshot(c: Config, file: seq<Byte>, head: seq<Byte>): seq<Byte>
    requires c.tailBytes >= 0
  {
    head + c.marker + WholeLines(file[|file| - TailLength(c, |file|, |head|)..])
  }

  function Compact(c: Config, log: Log): Log
    requires c.tailBytes >= 0
  {
    Log(Snapshot(c, log.file, log.head), log.head, log.compactions + 1)
  }

  function ExtendHead(c: Config, head: seq<Byte>, data: seq<Byte>): seq<Byte>
    requires c.headBytes >= 0
  {
    if |head| < c.headBytes then head + data[..Min(c.headBytes - |head|, |data|)] else head
  }

  /** Make room if the file is full, then write one byte. */
  function FeedByte(c: Config, log: Log, b: Byte): Log
    requires ValidConfig(c)
  {
    var l := if |log.file| >= c.maxBytes then Compact(c, log) else log;
    Log(l.file + [b], ExtendHead(c, l.head, [b]), l.compactions)
  }

  function Feed(c: Config, log: Log, data: seq<Byte>): Log
    requires ValidConfig(c)
    decreases |data|
  {
    if data == [] then log else FeedByte(c, Feed(c, log, data[..|data| - 1]), data[|data| - 1])
  }

  /** Opening a path that already holds `existing`. */
  function Opened(c: Config, existing: seq<Byte>): Log
    requires ValidConfig(c)
  {
    var log := Log(existing, existing[..Min(|existing|, c.headBytes)], 0);
    if |existing| > c.maxBytes then Compact(c, log) else log
  }

  // ----- the shape of the file -----

  predicate NoNewline(s: seq<Byte>, lo: int, hi: int) {
    0 <= lo <= hi <= |s| && forall j :: lo <= j < hi ==> s[j] != NEWLINE
  }

  /** The stream s without its bytes from headBytes up to k, the marker standing for them. The file was last compacted
      when m bytes had come in; the kept suffix begins just after the first newline of the window that ended there, or
      where it ended if it held none. */
  predicate Elided(c: Config, s: seq<Byte>, file: seq<Byte>, k: nat, m: nat) {
    && ValidConfig(c) && c.maxBytes <= m <= |s| && m - c.tailBytes <= k <= m
    && file == s[..c.headBytes] + c.marker + s[k..]
    && ((k > m - c.tailBytes && s[k - 1] == NEWLINE && NoNewline(s, m - c.tailBytes, k - 1))
        || (k == m && NoNewline(s, m - c.tailBytes, m)))
  }

  ghost predicate Shape(c: Config, s: seq<Byte>, log: Log)
    requires ValidConfig(c)
  {
    && log.head == s[..Min(|s|, c.headBytes)]
    && (log.compactions == 0 ==> log.file == s)
    && (log.compactions > 0 ==> exists k, m :: Elided(c, s, log.file, k, m))
  }

  /** The window lies behind head and marker, so it is the end of the stream and holds no earlier marker. */
  lemma WindowIsStreamEnd(c: Config, s: seq<Byte>, log: Log)
    requires ValidConfig(c) && Shape(c, s, log) && |log.file| >= c.maxBytes
    ensures |log.head| == c.headBytes && TailLength(c, |log.file|, |log.head|) == c.tailBytes
    ensures |s| >= c.maxBytes && log.file[|log.file| - c.tailBytes..] == s[|s| - c.tailBytes..]
  {
  }

  lemma CompactKeepsShape(c: Config, s: seq<Byte>, log: Log)
    requires ValidConfig(c) && Shape(c, s, log) && |log.file| >= c.maxBytes
    ensures Shape(c, s, Compact(c, log))
    ensures |Compact(c, log).file| <= c.headBytes + |c.marker| + c.tailBytes
  {
    hide Snapshot, WholeLines;
    WindowIsStreamEnd(c, s, log);
    SnapshotParts(c, log);
    var k := CutFrom(s, |s| - c.tailBytes);
    assert log.head == s[..c.headBytes];
    assert Elided(c, s, Compact(c, log).file, k, |s|);
  }

  lemma SnapshotParts(c: Config, log: Log)
    requires ValidConfig(c) && |log.head| <= c.headBytes && |log.file| >= c.maxBytes
    ensures TailLength(c, |log.file|, |log.head|) == c.tailBytes
    ensures Compact(c, log).file == log.head + c.marker + WholeLines(log.file[|log.file| - c.tailBytes..])
    ensures |WholeLines(log.file[|log.file| - c.tailBytes..])| <= c.tailBytes
  {
    hide WholeLines, FirstNewline;
    var window := log.file[|log.file| - c.tailBytes..];
    WholeLinesShorter(window);
    assert TailLength(c, |log.file|, |log.head|) == c.tailBytes;
  }

  lemma WholeLinesShorter(window: seq<Byte>)
    ensures |WholeLines(window)| <= |window|
  {
  }

  lemma DropDrop(s: seq<Byte>, a: nat, b: nat)
    requires a + b <= |s|
    ensures s[a..][b..] == s[a + b..]
  {
  }

  /** Where the whole lines of the bytes from lo on begin. */
  lemma CutFrom(s: seq<Byte>, lo: nat) returns (k: nat)
    requires lo <= |s|
    ensures lo <= k <= |s| && WholeLines(s[lo..]) == s[k..]
    ensures (lo < k && s[k - 1] == NEWLINE && NoNewline(s, lo, k - 1)) || (k == |s| && NoNewline(s, lo, k))
  {
    hide FirstNewline;
    var window := s[lo..];
    var i := FirstNewline(window);
    if i >= 0 {
      k := lo + i + 1;
      DropDrop(s, lo, i + 1);
      assert window[i] == s[k - 1];
      forall j | lo <= j < k - 1 ensures s[j] != NEWLINE {
        assert s[j] == window[j - lo];
      }
    } else {
      k := |s|;
      forall j | lo <= j < k ensures s[j] != NEWLINE {
        assert s[j] == window[j - lo];
      }
    }
  }

  lemma WriteKeepsShape(c: Config, s: seq<Byte>, log: Log, b: Byte)
    requires ValidConfig(c) && Shape(c, s, log) && |log.file| < c.maxBytes
    ensures Shape(c, s + [b], FeedByte(c, log, b))
  {
    if log.compactions > 0 {
      var k: nat, m: nat :| Elided(c, s, log.file, k, m);
      assert (s + [b])[..c.headBytes] == s[..c.headBytes] && (s + [b])[k..] == s[k..] + [b];
      assert NoNewline(s, m - c.tailBytes, m) ==> NoNewline(s + [b], m - c.tailBytes, m);
      assert NoNewline(s, m - c.tailBytes, k - 1) ==> NoNewline(s + [b], m - c.tailBytes, k - 1);
      assert Elided(c, s + [b], log.file + [b], k, m);
    }
  }

  lemma FeedByteKeepsShape(c: Config, s: seq<Byte>, log: Log, b: Byte)
    requires ValidConfig(c) && Shape(c, s, log) && |log.file| <= c.maxBytes
    ensures Shape(c, s + [b], FeedByte(c, log, b)) && |FeedByte(c, log, b).file| <= c.maxBytes
  {
    if |log.file| >= c.maxBytes {
      CompactKeepsShape(c, s, log);
      WriteKeepsShape(c, s, Compact(c, log), b);
    } else {
      WriteKeepsShape(c, s, log, b);
    }
  }

  lemma OpenedHasShape(c: Config, existing: seq<Byte>)
    requires ValidConfig(c)
    ensures Shape(c, existing, Opened(c, existing)) && |Opened(c, existing).file| <= c.maxBytes
  {
    hide Snapshot, WholeLines, Elided;
    if |existing| > c.maxBytes {
      CompactKeepsShape(c, existing, Log(existing, existing[..c.headBytes], 0));
    }
  }

  /** After any appends the file is the whole stream or head, one marker and a suffix, and never exceeds the limit. */
  lemma {:induction false} FileShape(c: Config, existing: seq<Byte>, data: seq<Byte>)
    requires ValidConfig(c)
    ensures var log := Feed(c, Opened(c, existing), data);
      Shape(c, existing + data, log) && |log.file| <= c.maxBytes
    decreases |data|
  {
    hide Snapshot, FeedByte, Opened, Shape;
    if data == [] {
      OpenedHasShape(c, existing);
      assert existing + data == existing;
    } else {
      var n := |data| - 1;
      FileShape(c, existing, data[..n]);
      FeedByteKeepsShape(c, existing + data[..n], Feed(c, Opened(c, existing), data[..n]), data[n]);
      assert existing + data == existing + data[..n] + [data[n]];
    }
  }

  // ----- progress: how often the file is compacted -----

  /** Bytes every compaction is sure to free. */
  function Room(c: Config): int {
    c.maxBytes - c.headBytes - c.tailBytes - |c.marker|
  }

  /** Every compaction but the first was paid for by Room(c) appended bytes. */
  ghost predicate PaidFor(c: Config, log: Log, appended: int) {
    log.compactions >= 1 ==>
      && Room(c) * (log.compactions - 1) <= appended
      && |log.file| <= c.maxBytes - Room(c) + appended - Room(c) * (log.compactions - 1)
  }

  lemma CompactIsPaidFor(c: Config, log: Log, appended: int)
    requires ValidConfig(c) && |log.file| == c.maxBytes && |log.head| <= c.headBytes && appended >= 0
    requires PaidFor(c, log, appended)
    ensures PaidFor(c, Compact(c, log), appended)
  {
    hide Snapshot, WholeLines;
    SnapshotParts(c, log);
    if log.compactions >= 1 {
      assert Room(c) * log.compactions == Room(c) * (log.compactions - 1) + Room(c);
    }
  }

  lemma {:induction false} CompactionsArePaidFor(c: Config, existing: seq<Byte>, data: seq<Byte>)
    requires ValidConfig(c)
    ensures PaidFor(c, Feed(c, Opened(c, existing), data), |data|)
    decreases |data|
  {
    hide Snapshot, Opened, Room, Shape;
    if data == [] {
      OpenedIsPaidFor(c, existing);
    } else {
      var n := |data| - 1;
      var log := Feed(c, Opened(c, existing), data[..n]);
      CompactionsArePaidFor(c, existing, data[..n]);
      FileShape(c, existing, data[..n]);
      HeadFits(c, existing + data[..n], log);
      if |log.file| >= c.maxBytes {
        CompactIsPaidFor(c, log, n);
      }
    }
  }

  lemma HeadFits(c: Config, s: seq<Byte>, log: Log)
    requires ValidConfig(c) && Shape(c, s, log)
    ensures |log.head| <= c.headBytes
  {
  }

  lemma OpenedIsPaidFor(c: Config, existing: seq<Byte>)
    requires ValidConfig(c)
    ensures PaidFor(c, Opened(c, existing), 0)
  {
  }

  /** At most one compaction per Room(c) appended bytes, plus one. */
  lemma CompactionsAreBounded(c: Config, existing: seq<Byte>, data: seq<Byte>)
    requires ValidConfig(c)
    ensures Room(c) > 0
    ensures Feed(c, Opened(c, existing), data).compactions <= |data| / Room(c) + 1
  {
    hide Feed, Opened;
    var log := Feed(c, Opened(c, existing), data);
    CompactionsArePaidFor(c, existing, data);
    if log.compactions >= 1 {
      Quotient(|data|, Room(c), log.compactions - 1);
    }
  }

  lemma Quotient(n: nat, r: int, q: nat)
    requires r > 0 && r * q <= n
    ensures q <= n / r
  {
    var d := n / r;
    assert q >= d + 1 ==> r * q >= r * (d + 1);
  }

  /** The final file does not depend on how the data was cut into chunks. */
  lemma {:induction false} FeedInChunks(c: Config, log: Log, first: seq<Byte>, second: seq<Byte>)
    requires ValidConfig(c)
    ensures Feed(c, log, first + second) == Feed(c, Feed(c, log, first), second)
    decreases |second|
  {
    hide Snapshot, ExtendHead;
    if second == [] {
      assert first + second == first;
    } else {
      var n := |second| - 1;
      var all := first + second;
      FeedInChunks(c, log, first, second[..n]);
      assert all[..|all| - 1] == first + second[..n];
    }
  }

  // ----- the sink -----

  /** Feeding what fits, after making room once if need be, only appends. */
  lemma {:induction false} FeedSlice(c: Config, log: Log, data: seq<Byte>)
    requires ValidConfig(c) && |log.head| <= c.headBytes
    requires |log.file| >= c.maxBytes ==> |log.head| == c.headBytes
    requires var base := if |log.file| >= c.maxBytes then Compact(c, log) else log;
      data != [] && |base.file| + |data| <= c.maxBytes
    ensures var base := if |log.file| >= c.maxBytes then Compact(c, log) else log;
      Feed(c, log, data) == Log(base.file + data, ExtendHead(c, log.head, data), base.compactions)
    decreases |data|
  {
    hide FirstNewline;
    hide Snapshot;
    var n := |data| - 1;
    if n == 0 {
      assert data[..n] == [] && data == [data[0]];
      assert Feed(c, log, data) == FeedByte(c, log, data[0]);
    } else {
      FeedSlice(c, log, data[..n]);
      var base := if |log.file| >= c.maxBytes then Compact(c, log) else log;
      assert base.file + data[..n] + [data[n]] == base.file + data;
      ExtendHeadByByte(c, log.head, data);
    }
  }

  lemma ExtendHeadByByte(c: Config, head: seq<Byte>, data: seq<Byte>)
    requires c.headBytes >= 0 && data != [] && |head| <= c.headBytes
    ensures ExtendHead(c, ExtendHead(c, head, data[..|data| - 1]), [data[|data| - 1]]) == ExtendHead(c, head, data)
  {
  }

  lemma ExtendHeadInChunks(c: Config, head: seq<Byte>, first: seq<Byte>, second: seq<Byte>)
    requires c.headBytes >= 0 && |head| <= c.headBytes
    ensures ExtendHead(c, ExtendHead(c, head, first), second) == ExtendHead(c, head, first + second)
  {
  }

  /** The limit is kept, and the head is the whole file until it is full. */
  predicate Sound(c: Config, log: Log) {
    |log.file| <= c.maxBytes && |log.head| <= c.headBytes && (|log.head| < c.headBytes ==> log.head == log.file)
  }

  lemma SnapshotFits(c: Config, file: seq<Byte>, head: seq<Byte>)
    requires ValidConfig(c) && |head| <= c.headBytes
    ensures |Snapshot(c, file, head)| < c.maxBytes
  {
  }

  lemma {:induction false} FeedKeepsSound(c: Config, log: Log, data: seq<Byte>)
    requires ValidConfig(c) && Sound(c, log)
    ensures Sound(c, Feed(c, log, data)) && Feed(c, log, data).head == ExtendHead(c, log.head, data)
    decreases |data|
  {
    hide Snapshot;
    if data != [] {
      var l := Feed(c, log, data[..|data| - 1]);
      FeedKeepsSound(c, log, data[..|data| - 1]);
      ExtendHeadByByte(c, log.head, data);
      SnapshotFits(c, l.file, l.head);
    }
  }

  /** After `done`, one slice of the remaining data, written behind the file or behind its snapshot. */
  lemma FeedNextSlice(c: Config, log: Log, done: seq<Byte>, slice: seq<Byte>)
    requires ValidConfig(c) && Sound(c, log) && slice != []
    requires var l := Feed(c, log, done);
      |(if |l.file| >= c.maxBytes then Compact(c, l) else l).file| + |slice| <= c.maxBytes
    ensures var l := Feed(c, log, done);
      var base := if |l.file| >= c.maxBytes then Compact(c, l) else l;
      var next := Feed(c, log, done + slice);
      next.file == base.file + slice && next.compactions == base.compactions
  {
    hide Feed, Snapshot;
    FeedKeepsSound(c, log, done);
    FeedSlice(c, Feed(c, log, done), slice);
    FeedInChunks(c, log, done, slice);
  }

  lemma SnapshotFromBuffer(c: Config, file: seq<Byte>, head: seq<Byte>, tailBuffer: seq<Byte>)
    requires ValidConfig(c) && |head| <= c.headBytes
    requires tailBuffer == file[|file| - TailLength(c, |file|, |head|)..]
    ensures var i := FirstNewline(tailBuffer);
      Snapshot(c, file, head) == head + c.marker + (if i >= 0 then tailBuffer[i + 1..] else [])
    ensures |Snapshot(c, file, head)| < c.maxBytes
  {
    hide FirstNewline;
  }

  lemma ExtendHeadCases(c: Config, head: seq<Byte>, data: seq<Byte>)
    requires c.headBytes >= 0 && |head| <= c.headBytes
    ensures |head| == c.headBytes ==> ExtendHead(c, head, data) == head
    ensures |head| < c.headBytes ==> ExtendHead(c, head, data) == head + data[..Min(c.headBytes - |head|, |data|)]
  {
  }

  class BoundedDaemonLogSink {
    const c: Config
    var bytesWritten: nat
    var head: seq<Byte>
    var file: seq<Byte>          // what readers of the path see
    ghost var compactions: nat

    ghost predicate Valid()
      reads this
    {
      ValidConfig(c) && bytesWritten == |file| && Sound(c, State())
    }

    ghost function State(): Log
      reads this
    {
      Log(file, head, compactions)
    }

    /** The constructor proper and `initialize`, once the limits were accepted. */
    constructor (existing: seq<Byte>, config: Config)
      requires ValidConfig(config)
      ensures Valid() && c == config && State() == Opened(config, existing)
    {
      c := config;
      file := existing;
      bytesWritten := |existing|;
      head := existing[..Min(|existing|, config.headBytes)];
      compactions := 0;
      new;
      if bytesWritten > c.maxBytes {
        var ok := CompactFile();
      }
    }

    /** Opening throws (here: yields nothing) exactly when head, tail and marker do not fit below the limit. */
    static method Open(existing: seq<Byte>, maxBytes: int, headBytes: int, tailBytes: int)
      returns (sink: BoundedDaemonLogSink?, ghost config: Config)
      ensures config == Config(maxBytes, headBytes, tailBytes, Marker(maxBytes))
      ensures sink == null <==> !ValidConfig(config)
      ensures sink != null <==>
        headBytes >= 0 && tailBytes >= 0 && headBytes + |Marker(maxBytes)| + tailBytes < maxBytes
      ensures sink != null ==> fresh(sink) && sink.Valid() && sink.c == config
      ensures sink != null ==> sink.State() == Opened(config, existing)
    {
      hide Marker, Opened;
      var limits := Config(maxBytes, headBytes, tailBytes, Marker(maxBytes));
      config := limits;
      if limits.maxBytes <= 0 || limits.headBytes < 0 || limits.tailBytes < 0
         || limits.headBytes + limits.tailBytes + |limits.marker| >= limits.maxBytes {
        return null, limits;
      }
      sink := new BoundedDaemonLogSink(existing, limits);
    }

    /** `ok` is false where the source throws for want of capacity: it never does. */
    method CompactFile() returns (ok: bool)
      requires ValidConfig(c) && bytesWritten == |file| && |head| <= c.headBytes
      modifies this
      ensures ok && bytesWritten == |file| && State() == Compact(c, old(State()))
    {
      hide FirstNewline, Snapshot;
      var tailLength := Min(c.tailBytes, Max(0, bytesWritten - |head|));
      var tailBuffer := [];
      if tailLength > 0 {
        tailBuffer := file[bytesWritten - tailLength..bytesWritten];
      }
      SnapshotFromBuffer(c, file, head, tailBuffer);
      var firstNewline := FirstNewline(tailBuffer);
      var tail := if firstNewline >= 0 then tailBuffer[firstNewline + 1..] else [];
      var snapshot := head + c.marker + tail;
      if |snapshot| >= c.maxBytes { return false; }
      file := snapshot;
      bytesWritten := |snapshot|;
      compactions := compactions + 1;
      ok := true;
    }

    /** The inner loop: writes that may each take only part of what is left. */
    method WriteSlice(slice: seq<Byte>)
      requires bytesWritten == |file|
      modifies this`file, this`bytesWritten
      ensures file == old(file) + slice && bytesWritten == |file|
    {
      var sliceOffset := 0;
      while sliceOffset < |slice|
        invariant 0 <= sliceOffset <= |slice|
        invariant file == old(file) + slice[..sliceOffset] && bytesWritten == |file|
      {
        var written :| 1 <= written <= |slice| - sliceOffset;   // how much this write took
        file := file + slice[sliceOffset..sliceOffset + written];
        sliceOffset := sliceOffset + written;
        bytesWritten := bytesWritten + written;
      }
    }

    /** Every write may be partial; the outcome is that of feeding the bytes one at a time. */
    method Append(data: seq<Byte>) returns (ok: bool)
      requires Valid()
      modifies this
      ensures ok && Valid() && State() == Feed(c, old(State()), data)
    {
      hide Feed, Snapshot, ExtendHead;
      ghost var start := State();
      FeedNothing(c, start);
      if |data| == 0 { return true; }
      ExtendHeadCases(c, head, data);
      if |head| < c.headBytes {
        var take := Min(c.headBytes - |head|, |data|);
        head := head + data[..take];
      }
      var offset := 0;
      assert data[..0] == [];
      while offset < |data|
        invariant 0 <= offset <= |data|
        invariant head == ExtendHead(c, start.head, data)
        invariant bytesWritten == |file|
        invariant file == Feed(c, start, data[..offset]).file
        invariant compactions == Feed(c, start, data[..offset]).compactions
      {
        ghost var l := Feed(c, start, data[..offset]);
        FeedKeepsSound(c, start, data[..offset]);
        ExtendHeadInChunks(c, start.head, data[..offset], data[offset..]);
        ExtendHeadCases(c, l.head, data[offset..]);
        assert data[..offset] + data[offset..] == data;
        if bytesWritten >= c.maxBytes {
          assert head == l.head;
          var made := CompactFile();
        }
        ghost var base := file;
        assert base == (if |l.file| >= c.maxBytes then Compact(c, l) else l).file;
        var length := Min(|data| - offset, c.maxBytes - bytesWritten);
        if length <= 0 {
          SnapshotFits(c, l.file, l.head);
          return false;
        }
        var slice := data[offset..offset + length];
        WriteSlice(slice);
        FeedNextSlice(c, start, data[..offset], slice);
        assert data[..offset] + slice == data[..offset + length];
        offset := offset + |slice|;
      }
      assert data[..|data|] == data;
      FeedKeepsSound(c, start, data);
      ok := true;
    }
  }

  lemma FeedNothing(c: Config, log: Log)
    requires ValidConfig(c)
    ensures Feed(c, log, []) == log
  {
  }
}
