/**
 * The Podman log demultiplexer of podman.go: a stream of frames, each an 8-byte header
 * (channel, three bytes of padding, big-endian length) and a payload, becomes prefixed lines.
 */
module PodmanLogs {
  import opened Wrappers
  import opened Text

  type Byte = c: char | c as int < 256

  type Bytes = seq<Byte>

  // What reading past the last byte reports: a clean end, or a failed connection.
  datatype Ending = Eof | Broken

  datatype ReadError = EndOfStream | UnexpectedEnd | Transport

  datatype LogError = LostSync(channel: nat) | StreamError(payload: Bytes) | Read(error: ReadError)

  function Short(rest: Bytes, ending: Ending): ReadError {
    if ending.Broken? then Transport else if rest == [] then EndOfStream else UnexpectedEnd
  }

  class Reader {
    var rest: Bytes
    const ending: Ending

    constructor (data: Bytes, ending: Ending)
      ensures rest == data && this.ending == ending
    {
      rest := data;
      this.ending := ending;
    }

    // io.ReadFull: fills buffer[..n], or consumes what is left and fails.
    method ReadFull(buffer: array<Byte>, n: nat) returns (e: Option<ReadError>)
      requires n <= buffer.Length
      modifies this, buffer
      ensures n <= |old(rest)| ==> e == None && buffer[..n] == old(rest)[..n] && rest == old(rest)[n..]
      ensures n > |old(rest)| ==> e == Some(Short(old(rest), ending)) && rest == []
    {
      var m := if n <= |rest| then n else |rest|;
      for i := 0 to m
        invariant rest == old(rest)
        invariant buffer[..i] == rest[..i]
      {
        buffer[i] := rest[i];
      }
      e := if n <= |rest| then None else Some(Short(rest, ending));
      rest := rest[m..];
    }
  }

  function FromBigEndian(b: Bytes): (n: nat)
    requires |b| == 4
    ensures n < 0x1_0000_0000
  {
    ((b[0] as int * 256 + b[1] as int) * 256 + b[2] as int) * 256 + b[3] as int
  }

  function ToBigEndian(n: nat): (b: Bytes)
    requires n < 0x1_0000_0000
    ensures |b| == 4
  {
    [(n / 0x100_0000) as char, (n / 0x1_0000 % 256) as char, (n / 0x100 % 256) as char, (n % 256) as char]
  }

  lemma Digits(b0: nat, b1: nat, b2: nat, b3: nat)
    requires b0 < 256 && b1 < 256 && b2 < 256 && b3 < 256
    ensures var m := ((b0 * 256 + b1) * 256 + b2) * 256 + b3;
            && m / 0x100_0000 == b0 && m / 0x1_0000 % 256 == b1 && m / 0x100 % 256 == b2 && m % 256 == b3
  {
    var m := ((b0 * 256 + b1) * 256 + b2) * 256 + b3;
    assert m / 0x1_0000 == b0 * 256 + b1 && m / 0x100 == (b0 * 256 + b1) * 256 + b2;
  }

  lemma BigEndianRoundTrip(n: nat, b: Bytes)
    requires n < 0x1_0000_0000 && |b| == 4
    ensures FromBigEndian(ToBigEndian(n)) == n
    ensures ToBigEndian(FromBigEndian(b)) == b
  {
    Digits(b[0] as int, b[1] as int, b[2] as int, b[3] as int);
  }

  // strings.Split on newline.
  function Split(s: string): (lines: seq<string>)
    decreases |s|
  {
    var i := IndexOf(s, '\n');
    if i == |s| then [s] else [s[..i]] + Split(s[i + 1..])
  }

  function TrimNewline(s: string): string {
    if s != "" && s[|s| - 1] == '\n' then s[..|s| - 1] else s
  }

  function SplitLogFrame(frame: string): seq<string> {
    var f := TrimNewline(frame);
    if f == "" then [] else Split(f)
  }

  function Join(lines: seq<string>): string {
    if lines == [] then "" else if |lines| == 1 then lines[0] else lines[0] + "\n" + Join(lines[1..])
  }

  // Splitting loses nothing but one trailing newline, and leaves no newline in a line.
  lemma {:induction false} SplitJoin(s: string)
    ensures Split(s) != [] && Join(Split(s)) == s
    ensures forall k | 0 <= k < |Split(s)| :: '\n' !in Split(s)[k]
    decreases |s|
  {
    var i := IndexOf(s, '\n');
    IndexOfFirst(s, '\n');
    if i < |s| {
      SplitJoin(s[i + 1..]);
      var rest := Split(s[i + 1..]);
      assert s == s[..i] + "\n" + s[i + 1..];
      assert Split(s)[1..] == rest;
    }
  }

  lemma SplitLogFrameKeepsText(frame: string)
    ensures Join(SplitLogFrame(frame)) == TrimNewline(frame)
    ensures forall k | 0 <= k < |SplitLogFrame(frame)| :: '\n' !in SplitLogFrame(frame)[k]
  {
    SplitJoin(TrimNewline(frame));
  }

  function Prefixed(stream: string, lines: seq<string>): seq<string> {
    seq(|lines|, i requires 0 <= i < |lines| => stream + ": " + lines[i])
  }

  function FrameLines(channel: nat, payload: Bytes): seq<string> {
    Prefixed(if channel == 2 then "stderr" else "stdout", SplitLogFrame(payload))
  }

  function LogFrameLines(channel: nat, payload: Bytes): Result<seq<string>, LogError> {
    if channel == 3 then Err(StreamError(payload)) else Ok(FrameLines(channel, payload))
  }

  // The lines of a frame in full: the payload less one final newline, cut at the others, each
  // piece behind the name of its channel.
  lemma FrameLinesInFull(channel: nat, payload: Bytes) returns (texts: seq<string>)
    ensures |FrameLines(channel, payload)| == |texts|
    ensures forall k | 0 <= k < |texts| ::
              FrameLines(channel, payload)[k] == (if channel == 2 then "stderr: " else "stdout: ") + texts[k]
    ensures forall k | 0 <= k < |texts| :: '\n' !in texts[k]
    ensures payload == Join(texts) || payload == Join(texts) + "\n"
    ensures payload != "" && payload[|payload| - 1] == '\n' ==> payload == Join(texts) + "\n"
    ensures texts == [] <==> payload == "" || payload == "\n"
  {
    hide Split, IndexOf;
    texts := SplitLogFrame(payload);
    SplitLogFrameKeepsText(payload);
    SplitJoin(TrimNewline(payload));
    if payload != "" && payload[|payload| - 1] == '\n' {
      assert payload == payload[..|payload| - 1] + "\n";
    }
    assert "stderr" + ": " == "stderr: " && "stdout" + ": " == "stdout: ";
  }

  datatype Scanned = Scanned(lines: seq<string>, error: Option<LogError>)

  datatype Next = End | Failed(error: LogError) | Got(lines: seq<string>, rest: Bytes)

  // Reading one frame off the head of the stream.
  function ReadFrame(rest: Bytes, ending: Ending): (n: Next)
    ensures n.Got? ==> |n.rest| < |rest|
  {
    if |rest| < 8 then
      if rest == [] && ending.Eof? then End else Failed(Read(Short(rest, ending)))
    else
      var channel := rest[0] as int;
      if channel > 3 then Failed(LostSync(channel))
      else
        var length, body := FromBigEndian(rest[4..8]), rest[8..];
        if |body| < length then Failed(Read(Short(body, ending)))
        else
          match LogFrameLines(channel, body[..length])
          case Err(e) => Failed(e)
          case Ok(lines) => Got(lines, body[length..])
  }

  // Reading frame after frame to the end of the stream or the first error.
  function Scan(rest: Bytes, ending: Ending): Scanned
    decreases |rest|
  {
    match ReadFrame(rest, ending)
    case End => Scanned([], None)
    case Failed(e) => Scanned([], Some(e))
    case Got(lines, next) =>
      var more := Scan(next, ending);
      Scanned(lines + more.lines, more.error)
  }

  function LastN(lines: seq<string>, tail: nat): seq<string> {
    if |lines| > tail then lines[|lines| - tail..] else lines
  }

  function LogLines(stream: Bytes, ending: Ending, tail: nat): Scanned {
    var all := Scan(stream, ending);
    if all.error.Some? then all else Scanned(LastN(all.lines, tail), None)
  }

  method DemuxHeader(r: Reader, shared: array<Byte>) returns (channel: nat, length: nat, err: Option<LogError>)
    modifies r, shared
    ensures var s := old(r.rest);
            if |s| < 8 then err == Some(Read(Short(s, r.ending)))
            else if s[0] as int > 3 then err == Some(LostSync(s[0] as int))
            else err == None && channel == s[0] as int && length == FromBigEndian(s[4..8]) && r.rest == s[8..]
  {
    var buffer := shared;
    if buffer.Length < 8 {
      buffer := new Byte[8];
    }
    channel, length, err := 0, 0, None;
    var e := r.ReadFull(buffer, 8);
    if e.Some? {
      return 0, 0, Some(Read(e.value));
    }
    assert forall i :: 0 <= i < 8 ==> buffer[i] == buffer[..8][i];
    channel := buffer[0] as int;
    if channel > 3 {
      return 0, 0, Some(LostSync(channel));
    }
    assert buffer[4..8] == old(r.rest)[4..8];
    length := FromBigEndian(buffer[4..8]);
  }

  // The frame is a view of the shared buffer unless the payload does not fit in it.
  method DemuxFrame(r: Reader, shared: array<Byte>, length: nat) returns (frame: array<Byte>, err: Option<ReadError>)
    modifies r, shared
    ensures if |old(r.rest)| < length then err == Some(Short(old(r.rest), r.ending))
            else
              && err == None && length <= frame.Length && frame[..length] == old(r.rest)[..length]
              && r.rest == old(r.rest)[length..]
    ensures frame == shared || fresh(frame)
  {
    frame := shared;
    if frame.Length < length {
      frame := new Byte[length];
    }
    err := r.ReadFull(frame, length);
  }

  // The body of the read loop. The lines are copied out of the buffer before it is reused.
  method ReadOne(r: Reader, buffer: array<Byte>) returns (lines: seq<string>, end: bool, err: Option<LogError>)
    modifies r, buffer
    ensures match ReadFrame(old(r.rest), r.ending)
            case End => end && err == None
            case Failed(e) => !end && err == Some(e)
            case Got(ls, rest) => !end && err == None && lines == ls && r.rest == rest
  {
    hide FromBigEndian, FrameLines;
    var channel, length, headerError := DemuxHeader(r, buffer);
    if headerError == Some(Read(EndOfStream)) {
      return [], true, None;
    }
    if headerError.Some? {
      return [], false, headerError;
    }
    var frame, readError := DemuxFrame(r, buffer, length);
    if readError.Some? {
      return [], false, Some(Read(readError.value));
    }
    var frameLines := LogFrameLines(channel, frame[..length]);
    if frameLines.Err? {
      return [], false, Some(frameLines.error);
    }
    return frameLines.value, false, None;
  }

  lemma ScanOne(rest: Bytes, ending: Ending, before: seq<string>)
    ensures match ReadFrame(rest, ending)
            case End => Scan(rest, ending) == Scanned([], None)
            case Failed(e) => Scan(rest, ending) == Scanned([], Some(e))
            case Got(lines, next) =>
              && Scan(rest, ending).error == Scan(next, ending).error
              && before + Scan(rest, ending).lines == (before + lines) + Scan(next, ending).lines
  {
    hide ReadFrame;
  }

  method ContainerLogLines(r: Reader, tail: nat) returns (lines: seq<string>, err: Option<LogError>)
    modifies r
    ensures Scanned(lines, err) == LogLines(old(r.rest), r.ending, tail)
  {
    hide ReadFrame, Scan;
    lines := [];
    var buffer := new Byte[1024];
    ghost var stream := r.rest;
    while true
      invariant fresh(buffer)
      invariant Scan(stream, r.ending) == Scanned(lines + Scan(r.rest, r.ending).lines, Scan(r.rest, r.ending).error)
      decreases |r.rest|
    {
      ScanOne(r.rest, r.ending, lines);
      var frameLines, end, e := ReadOne(r, buffer);
      if end {
        break;
      }
      if e.Some? {
        return lines, e;
      }
      lines := lines + frameLines;
    }
    if |lines| > tail {
      lines := lines[|lines| - tail..];
    }
    err := None;
  }

  datatype Frame = Frame(channel: Byte, padding: Bytes, payload: Bytes) {
    predicate Text() {
      channel as int <= 2 && |padding| == 3 && |payload| < 0x1_0000_0000
    }

    function Encode(): Bytes
      requires Text()
    {
      [channel] + padding + ToBigEndian(|payload|) + payload
    }
  }

  predicate AllText(frames: seq<Frame>) {
    forall f | f in frames :: f.Text()
  }

  function EncodeAll(frames: seq<Frame>): Bytes
    requires AllText(frames)
  {
    if frames == [] then [] else frames[0].Encode() + EncodeAll(frames[1..])
  }

  function AllLines(frames: seq<Frame>): seq<string> {
    if frames == [] then [] else FrameLines(frames[0].channel as int, frames[0].payload) + AllLines(frames[1..])
  }

  // One encoded frame at the head of a stream is read as that frame.
  lemma ScanFrame(f: Frame, rest: Bytes, ending: Ending)
    requires f.Text()
    ensures Scan(f.Encode() + rest, ending) ==
            Scanned(FrameLines(f.channel as int, f.payload) + Scan(rest, ending).lines, Scan(rest, ending).error)
  {
    BigEndianRoundTrip(|f.payload|, ToBigEndian(|f.payload|));
    var s := f.Encode() + rest;
    assert s[4..8] == ToBigEndian(|f.payload|);
    assert s[8..][..|f.payload|] == f.payload && s[8..][|f.payload|..] == rest;
    hide FrameLines, FromBigEndian, ToBigEndian;
    assert ReadFrame(s, ending) == Got(FrameLines(f.channel as int, f.payload), rest);
    hide ReadFrame, Frame.Encode;
  }

  lemma {:induction false} ScanAll(frames: seq<Frame>, rest: Bytes, ending: Ending)
    requires AllText(frames)
    ensures Scan(EncodeAll(frames) + rest, ending) ==
            Scanned(AllLines(frames) + Scan(rest, ending).lines, Scan(rest, ending).error)
  {
    hide Scan, FrameLines, Frame.Encode;
    if frames == [] {
      assert EncodeAll(frames) + rest == rest;
      assert [] + Scan(rest, ending).lines == Scan(rest, ending).lines;
    } else {
      var f, tail := frames[0], EncodeAll(frames[1..]) + rest;
      ScanAll(frames[1..], rest, ending);
      ScanFrame(f, tail, ending);
      assert EncodeAll(frames) + rest == f.Encode() + tail;
      var head, mid, last := FrameLines(f.channel as int, f.payload), AllLines(frames[1..]), Scan(rest, ending).lines;
      assert head + (mid + last) == (head + mid) + last;
    }
  }

  // Decoding any sequence of text frames gives exactly the last of all their lines: tail of
  // them, or all if there are fewer.
  lemma DecodeEncoded(frames: seq<Frame>, tail: nat)
    requires AllText(frames)
    ensures var all, r := AllLines(frames), LogLines(EncodeAll(frames), Eof, tail);
            && r.error == None && |r.lines| == (if |all| < tail then |all| else tail)
            && r.lines == all[|all| - |r.lines|..]
  {
    hide Scan, EncodeAll, AllLines, LastN;
    LastNInFull(AllLines(frames), tail);
    WholeScan(frames);
  }

  lemma LastNInFull(lines: seq<string>, tail: nat)
    ensures var r := LastN(lines, tail);
            |r| == (if |lines| < tail then |lines| else tail) && r == lines[|lines| - |r|..]
  {
  }

  lemma WholeScan(frames: seq<Frame>)
    requires AllText(frames)
    ensures Scan(EncodeAll(frames), Eof) == Scanned(AllLines(frames), None)
  {
    hide EncodeAll, AllLines, FrameLines, LogFrameLines;
    ScanAll(frames, [], Eof);
    assert EncodeAll(frames) + [] == EncodeAll(frames);
    assert AllLines(frames) + [] == AllLines(frames);
  }

  // The frames a successfully read stream consisted of.
  function FramesOf(stream: Bytes, ending: Ending): (frames: seq<Frame>)
    requires Scan(stream, ending).error.None?
    decreases |stream|
  {
    if stream == [] then []
    else
      var length := FromBigEndian(stream[4..8]);
      [Frame(stream[0], stream[1..4], stream[8..8 + length])] + FramesOf(stream[8 + length..], ending)
  }

  lemma HeadFrame(stream: Bytes, length: nat)
    requires 8 + length <= |stream| && length == FromBigEndian(stream[4..8]) && stream[0] as int <= 2
    ensures var f := Frame(stream[0], stream[1..4], stream[8..8 + length]);
            f.Text() && f.Encode() + stream[8 + length..] == stream
  {
    BigEndianRoundTrip(0, stream[4..8]);
    hide FromBigEndian, ToBigEndian;
    var f := Frame(stream[0], stream[1..4], stream[8..8 + length]);
    assert f.Encode() == [stream[0]] + stream[1..4] + stream[4..8] + stream[8..8 + length];
  }

  // Conversely, success means the stream ended cleanly and was a whole sequence of text frames.
  lemma {:induction false} DecodedWasEncoded(stream: Bytes, ending: Ending)
    requires Scan(stream, ending).error.None?
    ensures ending.Eof?
    ensures AllText(FramesOf(stream, ending)) && EncodeAll(FramesOf(stream, ending)) == stream
    decreases |stream|
  {
    hide FromBigEndian, Frame.Encode, FrameLines;
    if stream != [] {
      var length := FromBigEndian(stream[4..8]);
      var rest := stream[8 + length..];
      assert stream[8..][length..] == rest;
      DecodedWasEncoded(rest, ending);
      HeadFrame(stream, length);
      var frames := FramesOf(stream, ending);
      assert frames[1..] == FramesOf(rest, ending);
    }
  }

  // The four length bytes in full.
  lemma BigEndianInFull(b: Bytes)
    requires |b| == 4
    ensures FromBigEndian(b) == b[0] as int * 0x100_0000 + b[1] as int * 0x1_0000 + b[2] as int * 0x100 + b[3] as int
  {
  }

  // The other channels end the reading: a frame of channel 3 with its text, an unknown
  // channel at once.
  lemma OtherChannels(stream: Bytes, ending: Ending, length: nat)
    requires |stream| >= 8 && length == FromBigEndian(stream[4..8])
    ensures stream[0] as int > 3 ==> Scan(stream, ending) == Scanned([], Some(LostSync(stream[0] as int)))
    ensures stream[0] as int == 3 && 8 + length <= |stream| ==>
              Scan(stream, ending) == Scanned([], Some(StreamError(stream[8..8 + length])))
  {
    hide FromBigEndian, FrameLines;
    assert 8 + length <= |stream| ==> stream[8..][..length] == stream[8..8 + length];
  }

  // What a cut is reported as: a failed connection as such, otherwise a clean end of stream
  // where the payload would have begun, and an unexpected one anywhere else.
  function CutError(cut: nat, ending: Ending): ReadError {
    match ending
    case Broken => Transport
    case Eof => if cut == 8 then EndOfStream else UnexpectedEnd
  }

  lemma CutFrame(f: Frame, cut: nat, ending: Ending)
    requires f.Text() && 0 < cut < |f.Encode()|
    ensures Scan(f.Encode()[..cut], ending) == Scanned([], Some(Read(CutError(cut, ending))))
  {
    var part := f.Encode()[..cut];
    if cut >= 8 {
      var head, size := [f.channel] + f.padding, ToBigEndian(|f.payload|);
      assert |head| == 4 && |size| == 4;
      assert f.Encode() == head + size + f.payload;
      assert part[4..8] == f.Encode()[4..8] == size;
      BigEndianRoundTrip(|f.payload|, part[4..8]);
    }
    hide FromBigEndian, ToBigEndian, FrameLines;
  }

  // A stream cut inside a header or a payload is an error; the lines read so far are kept.
  lemma TruncationIsAnError(frames: seq<Frame>, f: Frame, cut: nat, ending: Ending, tail: nat)
    requires AllText(frames) && f.Text() && 0 < cut < |f.Encode()|
    ensures LogLines(EncodeAll(frames) + f.Encode()[..cut], ending, tail) ==
            Scanned(AllLines(frames), Some(Read(CutError(cut, ending))))
  {
    CutFrame(f, cut, ending);
    ScanAll(frames, f.Encode()[..cut], ending);
    hide Scan, Frame.Encode;
    assert AllLines(frames) + [] == AllLines(frames);
  }
}
