/** The watch body: frames are re-encoded into one reused buffer and read out in pieces of any size. */
module WatchStream {
  import opened Text

  newtype byte = x: int | 0 <= x < 256

  /** A frame as it arrived, and as it goes out after filtering if it can be decoded, judged and encoded. */
  datatype Frame = Frame(raw: seq<byte>, decodes: bool, encoded: Option<seq<byte>>)

  predicate Sound(frame: Frame) { frame.decodes && frame.encoded.Some? }

  /** The request's context can end a read that waits for a frame. */
  datatype Failure = Eof | Broken | Canceled

  /** What comes out: everything up to the first frame that cannot be dealt with. */
  function Flatten(frames: seq<Frame>): seq<byte> {
    if frames == [] || !Sound(frames[0]) then [] else frames[0].encoded.value + Flatten(frames[1..])
  }

  /** How it ends there. */
  function EndOf(frames: seq<Frame>, clean: bool): Failure {
    if frames == [] then (if clean then Eof else Broken)
    else if Sound(frames[0]) then EndOf(frames[1..], clean)
    else Broken
  }

  predicate AllSound(frames: seq<Frame>) { forall i :: 0 <= i < |frames| ==> Sound(frames[i]) }

  function Encodings(frames: seq<Frame>): seq<byte>
    requires AllSound(frames)
  {
    if frames == [] then []
    else Encodings(frames[..|frames| - 1]) + frames[|frames| - 1].encoded.value
  }

  /** The sound frames come out whole and in order, and a clean end is reported only when none was left behind. */
  lemma {:induction false} StreamExactly(good: seq<Frame>, rest: seq<Frame>, clean: bool)
    requires AllSound(good) && (rest != [] ==> !Sound(rest[0]))
    ensures Flatten(good + rest) == Encodings(good)
    ensures EndOf(good + rest, clean) == if rest == [] && clean then Eof else Broken
  {
    if good == [] {
      assert good + rest == rest;
    } else {
      var all := good + rest;
      assert all[0] == good[0] && all[1..] == good[1..] + rest;
      StreamExactly(good[1..], rest, clean);
      EncodingsHead(good);
    }
  }

  lemma {:induction false} EncodingsHead(frames: seq<Frame>)
    requires frames != [] && AllSound(frames)
    ensures Encodings(frames) == frames[0].encoded.value + Encodings(frames[1..])
  {
    var n := |frames| - 1;
    if n == 0 {
      assert frames[..0] == [];
    } else {
      EncodingsHead(frames[..n]);
      assert frames[1..][..n - 1] == frames[..n][1..];
    }
  }

  lemma SplitFirst(body: seq<byte>, rest: seq<byte>, n: nat)
    requires n <= |body|
    ensures (body + rest)[..n] == body[..n]
    ensures (body + rest)[n..] == body[n..] + rest
  {
  }

  /** Decodes and encodes through a single buffer that is overwritten each time. */
  class Serializer {
    var frames: seq<Frame>
    /** The connection ends cleanly after the last frame. */
    const clean: bool
    var buf: array<byte>
    var len: nat

    constructor (frames: seq<Frame>, clean: bool, pooled: array<byte>)
      ensures this.frames == frames && this.clean == clean && buf == pooled && len == 0
    {
      this.frames, this.clean, this.buf, this.len := frames, clean, pooled, 0;
    }

    function End(): Failure
      reads this
    {
      EndOf(frames, clean)
    }

    /** Writing from the start of the buffer; a buffer that is too small is replaced. */
    method Fill(data: seq<byte>)
      modifies this`buf, this`len, buf
      ensures len == |data| <= buf.Length && buf[..len] == data
      ensures buf == old(buf) || fresh(buf)
    {
      if |data| > buf.Length { buf := new byte[|data|]; }
      len := |data|;
      forall i | 0 <= i < |data| { buf[i] := data[i]; }
    }

    method DecodeWatch() returns (frame: Frame, err: Option<Failure>)
      modifies this`buf, this`len, this`frames, buf
      ensures buf == old(buf) || fresh(buf)
      ensures old(frames) == [] ==> err == Some(old(End())) && frames == []
      ensures old(frames) != [] ==>
        && frame == old(frames)[0] && frames == old(frames)[1..]
        && err == if frame.decodes then None else Some(Broken)
    {
      if frames == [] { return Frame([], false, None), Some(if clean then Eof else Broken); }
      frame := frames[0];
      err := if frame.decodes then None else Some(Broken);
      Fill(frame.raw);
      frames := frames[1..];
    }

    method EncodeWatch(frame: Frame) returns (err: Option<Failure>)
      modifies this`buf, this`len, buf
      ensures buf == old(buf) || fresh(buf)
      ensures err == if frame.encoded.Some? then None else Some(Broken)
      ensures err.None? ==> len == |frame.encoded.value| <= buf.Length && buf[..len] == frame.encoded.value
    {
      if frame.encoded.None? { return Some(Broken); }
      Fill(frame.encoded.value);
      err := None;
    }

    /** The next frame, decoded and encoded again through the same buffer. */
    method NextFrame()
      requires frames != [] && Sound(frames[0])
      modifies this`buf, this`len, this`frames, buf
      ensures buf == old(buf) || fresh(buf)
      ensures frames == old(frames)[1..]
      ensures len == |old(frames)[0].encoded.value| <= buf.Length && buf[..len] == old(frames)[0].encoded.value
    {
      var frame, _ := DecodeWatch();
      var _ := EncodeWatch(frame);
    }
  }

  class WatchHandler {
    const ser: Serializer
    /** The unread tail of the last frame is `rem[lo..hi]`, a slice of the serializer's own buffer. */
    var rem: array<byte>
    var lo: nat
    var hi: nat

    constructor (ser: Serializer)
      ensures this.ser == ser && Valid() && Pending() == Flatten(ser.frames)
    {
      this.ser := ser;
      rem, lo, hi := ser.buf, 0, 0;
    }

    predicate Valid()
      reads this, ser
    {
      lo <= hi <= rem.Length && rem == ser.buf
    }

    /** Everything still to come out. */
    function Pending(): seq<byte>
      requires Valid()
      reads this, ser, ser.buf
    {
      rem[lo..hi] + Flatten(ser.frames)
    }

    /** The tail of a frame in progress. */
    method ReadRemaining(p: array<byte>) returns (n: nat)
      requires Valid() && p != rem && lo < hi
      modifies this`lo, this`hi, p
      ensures Valid()
      ensures n <= p.Length && n <= |old(Pending())|
      ensures p[..n] == old(Pending())[..n] && Pending() == old(Pending())[n..]
      ensures p.Length > 0 ==> n > 0
    {
      ghost var tail, rest := rem[lo..hi], Flatten(ser.frames);
      n := if hi - lo <= p.Length then hi - lo else p.Length;
      CopyInto(p, rem, lo, n);
      SplitFirst(tail, rest, n);
      assert rem[lo + n..hi] == tail[n..];
      if n == hi - lo {
        lo, hi := 0, 0;
      } else {
        lo := lo + n;
      }
    }

    /** The start of the frame just encoded goes to the caller, and the rest of it remains. */
    method HandOut(p: array<byte>) returns (n: nat)
      requires ser.len <= ser.buf.Length && p != ser.buf
      modifies this`rem, this`lo, this`hi, p
      ensures Valid() && n <= p.Length && n <= ser.len
      ensures p[..n] == ser.buf[..ser.len][..n] && rem[lo..hi] == ser.buf[..ser.len][n..]
    {
      n := if ser.len > p.Length then p.Length else ser.len;
      CopyInto(p, ser.buf, 0, n);
      rem, lo, hi := ser.buf, n, ser.len;
    }

    /** One frame is decoded, filtered and encoded over the old buffer, whose bytes are all delivered by now. */
    method ReadFrame(p: array<byte>) returns (n: nat)
      requires Valid() && p != rem && lo == hi && ser.frames != [] && Sound(ser.frames[0])
      modifies this, ser, ser.buf, p
      ensures Valid() && (ser.buf == old(ser.buf) || fresh(ser.buf))
      ensures n <= p.Length && n <= |old(Pending())|
      ensures p[..n] == old(Pending())[..n] && Pending() == old(Pending())[n..]
      ensures ser.frames == old(ser.frames)[1..]
    {
      ghost var first, rest := ser.frames[0].encoded.value, Flatten(ser.frames[1..]);
      assert Pending() == first + rest;
      ser.NextFrame();
      n := HandOut(p);
      SplitFirst(first, rest, n);
    }

    /** A read that fails: at the end, at a frame that cannot be dealt with, or because the request was canceled. */
    method Fail(canceled: bool) returns (err: Failure)
      requires Valid() && lo == hi && (canceled || ser.frames == [] || !Sound(ser.frames[0]))
      modifies this, ser, ser.buf
      ensures Valid() && (ser.buf == old(ser.buf) || fresh(ser.buf)) && |ser.frames| <= old(|ser.frames|)
      ensures err == if canceled then Canceled else old(ser.End())
    {
      var decoding: bool := *;
      if canceled && !decoding {
        rem, lo, hi := ser.buf, 0, 0;
        return Canceled;
      }
      var frame, failure := ser.DecodeWatch();
      if failure.None? { failure := ser.EncodeWatch(frame); }
      rem, lo, hi := ser.buf, 0, 0;
      err := if canceled || failure.None? then Canceled else failure.value;
    }

    /** Copies out the next bytes of the stream; the buffer is refilled only when nothing of it remains. */
    method Read(p: array<byte>) returns (n: nat, err: Option<Failure>)
      requires Valid() && p != rem
      modifies this, ser, ser.buf, p
      ensures Valid() && (ser.buf == old(ser.buf) || fresh(ser.buf))
      ensures n <= p.Length && n <= |old(Pending())| && p[..n] == old(Pending())[..n]
      ensures err.None? ==> Pending() == old(Pending())[n..] && ser.End() == old(ser.End())
      ensures err.Some? ==> n == 0 && old(lo == hi)
      ensures err.Some? && err != Some(Canceled) ==> old(Pending()) == [] && err == Some(old(ser.End()))
      ensures |ser.frames| <= old(|ser.frames|)
      ensures err.None? && p.Length > 0 ==> n > 0 || |ser.frames| < old(|ser.frames|)
    {
      err := None;
      if hi - lo > 0 {
        n := ReadRemaining(p);
        return;
      }
      var canceled: bool := *;
      if canceled || ser.frames == [] || !Sound(ser.frames[0]) {
        var failure := Fail(canceled);
        n, err := 0, Some(failure);
      } else {
        n := ReadFrame(p);
      }
    }
  }

  method CopyInto(p: array<byte>, src: array<byte>, from: nat, n: nat)
    requires p != src && n <= p.Length && from + n <= src.Length
    modifies p
    ensures p[..n] == src[from..from + n]
  {
    forall i | 0 <= i < n { p[i] := src[from + i]; }
  }

  datatype CopyError = ReadFailed(why: Failure) | WriteFailed | ShortWrite

  /** The client side: may take less than it is offered, or fail. */
  class Sink {
    var out: seq<byte>

    method Write(data: seq<byte>) returns (n: nat, failed: bool)
      modifies this
      ensures n <= |data| && out == old(out) + data[..n]
    {
      n :| 0 <= n <= |data|;
      failed := *;
      out := out + data[..n];
    }
  }

  /** Unless the client side failed or went away everything came through, and the end is reported as it was. */
  predicate Ended(err: Option<CopyError>, end: Failure, complete: bool) {
    match err
    case None => complete && end == Eof
    case Some(ReadFailed(why)) => why == Canceled || (complete && why == end != Eof)
    case Some(_) => true
  }

  lemma Resume(all: seq<byte>, written: nat, n: nat)
    requires written + n <= |all|
    ensures all[..written + n] == all[..written] + all[written..][..n]
    ensures all[written..][n..] == all[written + n..]
  {
  }

  /** One turn of the copy loop: what was read is written, in order, until the client balks. */
  method Pump(dst: Sink, src: WatchHandler, buf: array<byte>) returns (n: nat, done: bool, err: Option<CopyError>)
    requires src.Valid() && buf != src.rem && buf.Length > 0
    modifies dst, src, src.ser, src.ser.buf, buf
    ensures src.Valid() && (src.ser.buf == old(src.ser.buf) || fresh(src.ser.buf))
    ensures n <= |old(src.Pending())| && dst.out == old(dst.out) + old(src.Pending())[..n]
    ensures !done ==> src.Pending() == old(src.Pending())[n..]
    ensures !done ==> |src.Pending()| + |src.ser.frames| < old(|src.Pending()| + |src.ser.frames|)
    ensures !done ==> src.ser.End() == old(src.ser.End())
    ensures done ==> Ended(err, old(src.ser.End()), n == |old(src.Pending())|)
  {
    ghost var pend := src.Pending();
    var got, rerr := src.Read(buf);
    n := 0;
    if got > 0 {
      var failed;
      n, failed := dst.Write(buf[..got]);
      assert buf[..got][..n] == pend[..n];
      if failed { return n, true, Some(WriteFailed); }
      if n != got { return n, true, Some(ShortWrite); }
    }
    if rerr.Some? {
      return n, true, if rerr.value == Eof then None else Some(ReadFailed(rerr.value));
    }
    return n, false, None;
  }

  method CopyAll(dst: Sink, src: WatchHandler, buf: array<byte>) returns (written: nat, err: Option<CopyError>)
    requires src.Valid() && buf != src.rem && buf.Length > 0
    modifies dst, src, src.ser, src.ser.buf, buf
    ensures written <= |old(src.Pending())| && dst.out == old(dst.out) + old(src.Pending())[..written]
    ensures Ended(err, old(src.ser.End()), written == |old(src.Pending())|)
  {
    ghost var all, before := src.Pending(), dst.out;
    written, err := 0, None;
    var done := false;
    while !done
      invariant src.Valid() && buf != src.rem
      invariant src.ser.buf == old(src.ser.buf) || fresh(src.ser.buf)
      invariant written <= |all| && dst.out == before + all[..written]
      invariant done ==> Ended(err, old(src.ser.End()), written == |all|)
      invariant !done ==> src.Pending() == all[written..] && src.ser.End() == old(src.ser.End())
      decreases !done, |src.Pending()| + |src.ser.frames|
    {
      var n;
      n, done, err := Pump(dst, src, buf);
      Resume(all, written, n);
      written := written + n;
    }
  }

  /**
   * Copies the watch body to the client: the bytes that arrive are always a prefix of the encoded frames in
   * order, and all of them unless the client side failed or the request was canceled.
   */
  method CopyBuffer(dst: Sink, src: WatchHandler, given: array<byte>) returns (written: nat, err: Option<CopyError>)
    requires src.Valid() && given != src.rem
    modifies dst, src, src.ser, src.ser.buf, given
    ensures written <= |old(src.Pending())| && dst.out == old(dst.out) + old(src.Pending())[..written]
    ensures Ended(err, old(src.ser.End()), written == |old(src.Pending())|)
  {
    if given.Length == 0 {
      var buf := new byte[32 * 1024];
      written, err := CopyAll(dst, src, buf);
    } else {
      written, err := CopyAll(dst, src, given);
    }
  }
}
