/**
 * The wire format of the event stream a chat session writes: one
 * `data: <message>` line followed by a blank line per message, the "data"
 * field of the server-sent events format (WHATWG HTML Living Standard,
 * section 9.2). A frame is built by plain concatenation; nothing in the
 * message is escaped.
 */
module EventStream {
  import opened Wrappers

  /** The field name, colon and single space that open every frame. */
  const DataPrefix: string := "data: "
  const LF: char := '\n'
  const CR: char := '\r'

  /** CR and LF both end a line in the event-stream format. */
  predicate IsLineBreak(c: char) {
    c == LF || c == CR
  }

  predicate NoLineBreak(m: string) {
    forall i :: 0 <= i < |m| ==> !IsLineBreak(m[i])
  }

  predicate AllSingleLine(ms: seq<string>) {
    forall k :: 0 <= k < |ms| ==> NoLineBreak(ms[k])
  }

  /**
   * The frame one message becomes on a session's sink. For a message without
   * line breaks the only line terminators are the two final characters: one
   * `data:` line, then the blank line that dispatches the event.
   */
  function Frame(m: string): (f: string)
    ensures |f| == |m| + 8
    ensures f[..6] == DataPrefix && f[6..|m| + 6] == m && f[|m| + 6..] == [LF, LF]
    ensures NoLineBreak(m) ==>
      forall i :: 0 <= i < |f| ==> (IsLineBreak(f[i]) <==> |m| + 6 <= i)
  {
    var f := DataPrefix + m + [LF, LF];
    assert forall i :: 6 <= i < |m| + 6 ==> f[i] == m[i - 6];
    f
  }

  /** The frames of a sequence of messages, one per message, in order. */
  function Frames(ms: seq<string>): seq<string> {
    seq(|ms|, i requires 0 <= i < |ms| => Frame(ms[i]))
  }

  /** The characters a sink has received, writes concatenated in order. */
  function Concat(fs: seq<string>): string {
    if fs == [] then [] else fs[0] + Concat(fs[1..])
  }

  /** Length of the first line of `s`: the index of its first CR or LF. */
  function LineLength(s: string): (n: nat)
    ensures n <= |s|
    ensures forall i :: 0 <= i < n ==> !IsLineBreak(s[i])
    ensures n < |s| ==> IsLineBreak(s[n])
  {
    if s == [] || IsLineBreak(s[0]) then 0 else 1 + LineLength(s[1..])
  }

  /** The stream of one more frame in front. */
  lemma FramesCons(m: string, rest: seq<string>)
    ensures Concat(Frames([m] + rest)) == Frame(m) + Concat(Frames(rest))
  {
    assert Frames([m] + rest)[1..] == Frames(rest);
  }

  /**
   * Reads the frame at the front of `s`: a `data: ` line and a blank line, both
   * ended by LF. Answers the line's text and the number of characters the
   * frame takes, or None when `s` does not start with such a frame.
   */
  function ReadFrame(s: string): (r: Option<(string, nat)>)
    ensures r.Some? ==>
      var (m, k) := r.value;
      NoLineBreak(m) && k == |m| + 8 && k <= |s| && s[..k] == Frame(m)
  {
    if |s| < 6 || s[..6] != DataPrefix then None
    else
      var n := LineLength(s[6..]);
      if 6 + n + 2 <= |s| && s[6 + n] == LF && s[6 + n + 1] == LF then
        var m := s[6..6 + n];
        assert NoLineBreak(m) by {
          assert forall i :: 0 <= i < n ==> m[i] == s[6..][i];
        }
        assert s[..n + 8] == s[..6] + m + s[6 + n..6 + n + 2];
        assert s[6 + n..6 + n + 2] == [LF, LF];
        Some((m, n + 8))
      else None
  }

  /** The frame of a single-line message, read off the front of any stream, is that message. */
  lemma ReadOneFrame(m: string, t: string)
    requires NoLineBreak(m)
    ensures ReadFrame(Frame(m) + t) == Some((m, |m| + 8))
  {
    var s := Frame(m) + t;
    assert s[..6] == DataPrefix;
    assert s[6..][|m|] == LF;
    assert forall i :: 0 <= i < |m| ==> s[6..][i] == m[i];
    assert LineLength(s[6..]) == |m|;
    assert s[6..6 + |m|] == m;
  }

  /**
   * Reads an event stream back into its messages, accepting exactly streams
   * made of `data: <line>` LF LF frames (the shape this server writes) and
   * answering None for anything else. Whatever it accepts is the
   * concatenation of the frames of single-line messages.
   */
  function ParseEvents(s: string): (r: Option<seq<string>>)
    ensures r.Some? ==> AllSingleLine(r.value) && s == Concat(Frames(r.value))
    decreases |s|
  {
    if s == [] then Some([])
    else
      match ReadFrame(s)
      case None => None
      case Some((m, k)) =>
        match ParseEvents(s[k..])
        case None => None
        case Some(rest) =>
          FramesCons(m, rest);
          assert s == s[..k] + s[k..];
          Some([m] + rest)
  }

  /**
   * Reading one frame of a single-line message off the front of a stream
   * yields that message, followed by whatever the rest of the stream reads as.
   */
  lemma ParseOneFrame(m: string, t: string)
    requires NoLineBreak(m)
    ensures ParseEvents(Frame(m) + t) ==
      match ParseEvents(t)
      case Some(rest) => Some([m] + rest)
      case None => None
  {
    ReadOneFrame(m, t);
    assert (Frame(m) + t)[|m| + 8..] == t;
  }

  /**
   * Framing is invertible for single-line messages: a reader of the stream
   * recovers exactly the messages written, in order.
   */
  lemma {:induction false} ParseFramed(ms: seq<string>)
    requires AllSingleLine(ms)
    ensures ParseEvents(Concat(Frames(ms))) == Some(ms)
  {
    if ms != [] {
      var rest := ms[1..];
      assert Frames(ms)[1..] == Frames(rest);
      assert AllSingleLine(rest) by {
        forall k | 0 <= k < |rest| ensures NoLineBreak(rest[k]) {
          assert rest[k] == ms[k + 1];
        }
      }
      ParseFramed(rest);
      assert NoLineBreak(ms[0]);
      ParseOneFrame(ms[0], Concat(Frames(rest)));
      assert ms == [ms[0]] + rest;
    }
  }

  /** Two frames written back to back are the frame of one message holding both. */
  lemma FrameJoin(a: string, b: string)
    ensures Frame(a + [LF, LF] + DataPrefix + b) == Frame(a) + Frame(b)
  {
    assert Frame(a) + Frame(b) == DataPrefix + a + [LF, LF] + DataPrefix + b + [LF, LF];
  }

  /**
   * A message holding a blank line followed by `data: ` is not escaped, so one
   * chat message reaches every viewer as two events.
   */
  lemma NewlineSplitsMessage(a: string, b: string)
    requires NoLineBreak(a) && NoLineBreak(b)
    ensures ParseEvents(Frame(a + [LF, LF] + DataPrefix + b)) == Some([a, b])
  {
    var fb := Frame(b);
    var empty: string := [];
    var none: seq<string> := [];
    assert ParseEvents(empty) == Some(none);
    ParseOneFrame(b, empty);
    assert fb + empty == fb;
    assert [b] + none == [b];
    assert ParseEvents(fb) == Some([b]);
    ParseOneFrame(a, fb);
    assert [a] + [b] == [a, b];
    assert ParseEvents(Frame(a) + fb) == Some([a, b]);
    FrameJoin(a, b);
  }
}
