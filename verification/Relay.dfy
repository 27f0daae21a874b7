/** The relay of a model call's event stream: Go's buffered reader over whatever
    pieces the upstream body comes in, and the loop that copies slice by slice
    and flushes. */
module Relay {
  import opened Outcomes
  import opened Bytes

  /** The size of the read buffer, and the bound on a relayed refusal. */
  const BUFFER: nat := 65536

  const LF: byte := 10

  const CR: byte := 13

  function Concat(parts: seq<seq<byte>>): seq<byte> { if parts == [] then [] else parts[0] + Concat(parts[1..]) }

  /** Where the first newline stands, or the length when there is none. */
  function NewlineAt(b: seq<byte>): (i: nat)
    ensures i <= |b|
  {
    if b == [] || b[0] == LF then 0 else 1 + NewlineAt(b[1..])
  }

  ghost predicate NoLf(b: seq<byte>) { forall j :: 0 <= j < |b| ==> b[j] != LF }

  lemma {:induction false} NewlineIsFirst(b: seq<byte>)
    ensures NewlineAt(b) < |b| ==> b[NewlineAt(b)] == LF
    ensures NoLf(b[..NewlineAt(b)])
  {
    if b != [] && b[0] != LF {
      NewlineIsFirst(b[1..]);
      var i := NewlineAt(b[1..]);
      forall j | 0 <= j < i + 1 ensures b[j] != LF {
        if j > 0 { assert b[1..][..i][j - 1] == b[j]; }
      }
    }
  }

  /** The length of the next slice: through the first newline if that is within
      the buffer, else as much as the buffer takes. It depends on the bytes
      alone, not on how they arrive. */
  function Cut(rest: seq<byte>): (n: nat)
    ensures n <= |rest| && n <= BUFFER && (rest != [] ==> n > 0)
  {
    if NewlineAt(rest) < |rest| && NewlineAt(rest) < BUFFER then NewlineAt(rest) + 1
    else if |rest| < BUFFER then |rest| else BUFFER
  }

  lemma NewlineIsThere(b: seq<byte>, i: nat)
    requires i < |b| && b[i] == LF && NoLf(b[..i])
    ensures NewlineAt(b) == i
  {
    assert forall j :: 0 <= j < i ==> b[..i][j] == b[j];
    NewlineIsFirst(b);
    var n := NewlineAt(b);
    assert forall j :: 0 <= j < n ==> b[..n][j] == b[j];
  }

  lemma NoNewlineIn(b: seq<byte>, tail: seq<byte>)
    requires NoLf(b)
    ensures NewlineAt(b + tail) >= |b|
  {
    assert forall j :: 0 <= j < |b| ==> (b + tail)[j] == b[j];
    NewlineIsFirst(b + tail);
  }

  /** The three ways a slice ends: at a newline in the buffer, with the body, or
      with the buffer. */
  lemma CutAtNewline(buf: seq<byte>, tail: seq<byte>, i: nat)
    requires |buf| <= BUFFER && i < |buf| && buf[i] == LF && NoLf(buf[..i])
    ensures Cut(buf + tail) == i + 1
    ensures (buf + tail)[..i + 1] == buf[..i + 1] && (buf + tail)[i + 1..] == buf[i + 1..] + tail
  {
    assert (buf + tail)[..i] == buf[..i];
    NewlineIsThere(buf + tail, i);
  }

  lemma CutAtTheEnd(buf: seq<byte>)
    requires |buf| <= BUFFER && NoLf(buf)
    ensures Cut(buf + []) == |buf| && (buf + [])[..|buf|] == buf && (buf + [])[|buf|..] == []
  {
    NoNewlineIn(buf, []);
  }

  lemma CutAtTheBuffer(buf: seq<byte>, tail: seq<byte>)
    requires |buf| == BUFFER && NoLf(buf)
    ensures Cut(buf + tail) == BUFFER && (buf + tail)[..BUFFER] == buf && (buf + tail)[BUFFER..] == tail
  {
    NoNewlineIn(buf, tail);
  }

  lemma SearchOnwards(buf: seq<byte>, searched: nat)
    requires searched <= |buf| && NoLf(buf[..searched])
    ensures var i := searched + NewlineAt(buf[searched..]);
      i <= |buf| && NoLf(buf[..i]) && (i < |buf| ==> buf[i] == LF)
  {
    NewlineIsFirst(buf[searched..]);
    var n := NewlineAt(buf[searched..]);
    var i := searched + n;
    forall j | 0 <= j < i ensures buf[..i][j] != LF {
      if j < searched {
        assert buf[..searched][j] == buf[j];
      } else {
        assert buf[searched..][..n][j - searched] == buf[j];
      }
    }
  }

  datatype End = MoreToCome | BufferFull | AtEnd

  /** bufio.Reader over a body that arrives in pieces. The error that ends it may
      come with the last piece or by itself. */
  class Reader {
    var buf: seq<byte>
    var upstream: seq<seq<byte>>
    var ended: bool
    const eager: bool

    ghost predicate Valid()
      reads this
    {
      |buf| <= BUFFER && (forall i :: 0 <= i < |upstream| ==> upstream[i] != []) && (ended ==> upstream == [])
    }

    /** What is still to be read. */
    ghost function Rest(): seq<byte>
      reads this
    {
      buf + Concat(upstream)
    }

    constructor (pieces: seq<seq<byte>>, eager: bool)
      requires forall i :: 0 <= i < |pieces| ==> pieces[i] != []
      ensures Valid() && Rest() == Concat(pieces)
    {
      buf, upstream, ended := [], pieces, false;
      this.eager := eager;
    }

    /** Reader.fill: one read of the body into the free part of the buffer. */
    method Fill()
      requires Valid() && !ended && |buf| < BUFFER
      modifies this
      ensures Valid() && Rest() == old(Rest()) && old(buf) <= buf
      ensures ended || |buf| > |old(buf)|
    {
      if upstream == [] {
        ended := true;
      } else {
        var piece := upstream[0];
        var n := if |piece| < BUFFER - |buf| then |piece| else BUFFER - |buf|;
        assert piece == piece[..n] + piece[n..];
        assert upstream == [piece] + upstream[1..];
        if n == |piece| {
          upstream := upstream[1..];
          ended := eager && upstream == [];
        } else {
          upstream := [piece[n..]] + upstream[1..];
        }
        buf := buf + piece[..n];
      }
    }

    /** Reader.ReadSlice at the newline. The slice is a function of the bytes still
        to be read; only when exactly a buffer of them is left without a newline
        does it depend on the body whether the end is told at once. */
    method ReadSlice() returns (line: seq<byte>, end: End)
      requires Valid()
      modifies this
      ensures Valid() && line == old(Rest())[..Cut(old(Rest()))] && Rest() == old(Rest())[Cut(old(Rest()))..]
      ensures end.AtEnd? ==> Rest() == []
      ensures !end.AtEnd? ==> line != []
    {
      ghost var rest := Rest();
      var searched: nat := 0;
      while true
        invariant Valid() && Rest() == rest && searched <= |buf|
        invariant NoLf(buf[..searched])
        decreases !ended, BUFFER - |buf|
      {
        SearchOnwards(buf, searched);
        var i := searched + NewlineAt(buf[searched..]);
        if i < |buf| {
          CutAtNewline(buf, Concat(upstream), i);
          line := buf[..i + 1];
          buf := buf[i + 1..];
          return line, MoreToCome;
        }
        assert buf[..i] == buf;
        if ended {
          CutAtTheEnd(buf);
          line := buf;
          buf := [];
          return line, AtEnd;
        }
        if |buf| >= BUFFER {
          CutAtTheBuffer(buf, Concat(upstream));
          line := buf;
          buf := [];
          return line, BufferFull;
        }
        searched := |buf|;
        ghost var before := buf;
        Fill();
        assert buf[..searched] == before;
      }
    }
  }

  /** The caller's side: what it was sent, how much of that was flushed, and how
      many more bytes it takes before it goes away. */
  class Sink {
    var status: Option<nat>
    var contentType: string
    var written: seq<byte>
    var flushed: nat
    var room: nat

    constructor (room: nat)
      ensures status == None && written == [] && flushed == 0 && this.room == room
    {
      status, contentType, written, flushed, this.room := None, "", [], 0, room;
    }

    method Write(b: seq<byte>) returns (ok: bool)
      modifies this`written, this`room
      ensures ok <==> |b| <= old(room)
      ensures written == old(written) + (if ok then b else b[..old(room)])
      ensures room == if ok then old(room) - |b| else 0
    {
      ok := |b| <= room;
      var n := if ok then |b| else room;
      written := written + b[..n];
      room := room - n;
    }

    method Flush()
      modifies this`flushed
      ensures flushed == |written|
    {
      flushed := |written|;
    }
  }

  /** How much was sent and how much of it flushed. */
  datatype Mark = Mark(sent: nat, flushed: nat)

  /** The slice of a body that begins at a place. */
  function SliceAt(body: seq<byte>, from: nat): seq<byte>
    requires from <= |body|
  {
    body[from..][..Cut(body[from..])]
  }

  /** One iteration of the copy loop. */
  function Next(body: seq<byte>, at: Mark): Mark
    requires at.sent <= |body|
  {
    var n := Cut(body[at.sent..]);
    Mark(at.sent + n, if n == 1 then at.sent + 1 else at.flushed)
  }

  /** What was sent and flushed at first and behind one slice after the other. */
  ghost predicate Trace(body: seq<byte>, marks: seq<Mark>) {
    && marks != [] && marks[0] == Mark(0, 0)
    && (forall i :: 0 <= i < |marks| ==> marks[i].sent <= |body|)
    && (forall i :: 0 <= i < |marks| - 1 ==> marks[i + 1] == Next(body, marks[i]))
  }

  /** The copy loop of Forward. What is sent is the body as far as the caller
      takes it, whatever pieces it came in; `marks` is the trace of the loop, up to
      the end of the body if no write fails. */
  method Copy(reader: Reader, w: Sink) returns (ghost marks: seq<Mark>)
    requires reader.Valid() && w.written == [] && w.flushed == 0
    modifies reader, w`written, w`flushed, w`room
    ensures var body := old(reader.Rest());
      && Trace(body, marks)
      && (|body| <= old(w.room) ==> w.written == body && w.flushed == |body| && marks[|marks| - 1].sent == |body|)
      && (|body| > old(w.room) ==> w.written == body[..old(w.room)])
  {
    ghost var body := reader.Rest();
    marks := [Mark(0, 0)];
    while true
      invariant reader.Valid() && Copied(body, w.written, reader.Rest())
      invariant Trace(body, marks) && marks[|marks| - 1] == Mark(|w.written|, w.flushed)
      invariant |w.written| + w.room == old(w.room)
      decreases |reader.Rest()|
    {
      ghost var sent, at := w.written, marks[|marks| - 1];
      var line, end := reader.ReadSlice();
      OneSliceMore(body, sent, line, reader.Rest());
      if |line| > 0 {
        var ok := w.Write(line);
        if !ok {
          CutOff(body, sent, line, old(w.room) - |sent|);
          return;
        }
        if |line| == 1 {
          w.Flush();
        }
        TraceOnwards(body, marks);
        marks := marks + [Next(body, at)];
      }
      if end.AtEnd? {
        w.Flush();
        return;
      }
    }
  }

  /** What was sent and what is left. */
  ghost predicate Copied(body: seq<byte>, sent: seq<byte>, rest: seq<byte>) {
    |sent| <= |body| && sent == body[..|sent|] && rest == body[|sent|..]
  }

  lemma OneSliceMore(body: seq<byte>, sent: seq<byte>, line: seq<byte>, rest: seq<byte>)
    requires |sent| <= |body| && sent == body[..|sent|]
    requires var n := Cut(body[|sent|..]); line == body[|sent|..][..n] && rest == body[|sent|..][n..]
    ensures |sent| + |line| <= |body| && |line| == Cut(body[|sent|..])
    ensures sent + line == body[..|sent| + |line|] && Copied(body, sent + line, rest)
  {
    var p, n := |sent|, Cut(body[|sent|..]);
    assert body[..p + n] == body[..p] + body[p..][..n];
    assert body[p + n..] == body[p..][n..];
  }

  lemma CutOff(body: seq<byte>, sent: seq<byte>, line: seq<byte>, room: nat)
    requires room <= |line| && |sent| + |line| <= |body| && sent + line == body[..|sent| + |line|]
    ensures sent + line[..room] == body[..|sent| + room]
  {
    assert body[..|sent| + room] == body[..|sent| + |line|][..|sent| + room];
  }

  lemma TraceOnwards(body: seq<byte>, marks: seq<Mark>)
    requires Trace(body, marks)
    ensures Trace(body, marks + [Next(body, marks[|marks| - 1])])
  {
  }

  /** What CreateModelCall answers. */
  datatype Upstream = Unreachable | Response(status: nat, contentType: string, body: Reader)

  /** Relay.Forward: an unreachable proxy is an error before anything is sent; a
      refusal is passed on up to the bound; an answer is copied as it arrives. */
  method Forward(up: Upstream, w: Sink) returns (ok: bool, ghost marks: seq<Mark>)
    requires up.Response? ==> up.body.Valid()
    requires w.status == None && w.written == [] && w.flushed == 0
    modifies w, if up.Response? then {up.body} else {}
    ensures ok <==> up.Response?
    ensures !ok ==> w.status == None && w.written == []
    ensures ok ==>
      var body := old(up.body.Rest());
      var sent := if up.status == 200 || |body| <= BUFFER then body else body[..BUFFER];
      && w.status == Some(up.status) && w.contentType == up.contentType
      && w.written == sent[..if |sent| <= old(w.room) then |sent| else old(w.room)]
      && (up.status == 200 ==> Trace(body, marks))
      && (up.status == 200 && |body| <= old(w.room) ==> w.flushed == |body| && marks[|marks| - 1].sent == |body|)
  {
    marks := [];
    if up.Unreachable? {
      return false, [];
    }
    w.contentType := up.contentType;
    if up.status != 200 {
      var body := ReadAll(up.body, BUFFER);
      w.status := Some(up.status);
      var _ := w.Write(body);
      return true, [];
    }
    w.status := Some(200);
    w.Flush();
    marks := Copy(up.body, w);
    return true, marks;
  }

  /** io.ReadAll of an io.LimitReader; what was read before an error is kept. */
  method ReadAll(r: Reader, limit: nat) returns (b: seq<byte>)
    requires r.Valid()
    modifies r
    ensures b == old(r.Rest())[..if |old(r.Rest())| <= limit then |old(r.Rest())| else limit]
  {
    b := r.buf;
    ghost var body := r.Rest();
    while |b| < limit && r.upstream != []
      invariant b + Concat(r.upstream) == body
      decreases |r.upstream|
    {
      assert r.upstream == [r.upstream[0]] + r.upstream[1..];
      b := b + r.upstream[0];
      r.upstream := r.upstream[1..];
    }
    if |b| > limit {
      b := b[..limit];
    }
  }

  // ---- What the trace says ----

  /** The trace depends on the bytes of the body alone: over the same body, in
      whatever pieces, one run's trace continues the other's. */
  lemma {:induction false} TracesAgree(body: seq<byte>, a: seq<Mark>, b: seq<Mark>, k: nat)
    requires Trace(body, a) && Trace(body, b) && k < |a| && k < |b|
    ensures a[k] == b[k]
  {
    if k > 0 {
      TracesAgree(body, a, b, k - 1);
      assert a[k - 1 + 1] == Next(body, a[k - 1]) && b[k - 1 + 1] == Next(body, b[k - 1]);
    }
  }

  /** A slice is a piece of the body; it holds a newline at its end at most, and
      one that does not fill the buffer ends with one unless it ends the body. */
  lemma SliceShape(body: seq<byte>, from: nat)
    requires from < |body|
    ensures var line := SliceAt(body, from);
      && 1 <= |line| <= BUFFER && from + |line| <= |body|
      && (forall j :: 0 <= j < |line| ==> line[j] == body[from + j])
      && (forall j :: 0 <= j < |line| - 1 ==> line[j] != LF)
      && (|line| < BUFFER && from + |line| < |body| ==> line[|line| - 1] == LF)
  {
    var rest, line := body[from..], SliceAt(body, from);
    NewlineIsFirst(rest);
    var n := NewlineAt(rest);
    assert forall j :: 0 <= j < n ==> rest[..n][j] == rest[j];
    assert forall j :: 0 <= j < |line| ==> line[j] == rest[j];
  }

  lemma {:induction false} FlushedIsSent(body: seq<byte>, marks: seq<Mark>, k: nat)
    requires Trace(body, marks) && k < |marks|
    ensures marks[k].flushed <= marks[k].sent
  {
    if k > 0 {
      FlushedIsSent(body, marks, k - 1);
      assert marks[k - 1 + 1] == Next(body, marks[k - 1]);
    }
  }

  /** What an iteration flushes: everything if and only if its slice is one byte. */
  lemma FlushedExactlyBehindOneByte(body: seq<byte>, marks: seq<Mark>, k: nat)
    requires Trace(body, marks) && k + 1 < |marks| && marks[k].sent < |body|
    ensures marks[k].sent < marks[k + 1].sent <= |body|
    ensures marks[k + 1].sent == marks[k].sent + |SliceAt(body, marks[k].sent)|
    ensures marks[k + 1].flushed == marks[k + 1].sent <==> marks[k + 1].sent == marks[k].sent + 1
  {
    assert marks[k + 1] == Next(body, marks[k]);
    FlushedIsSent(body, marks, k);
  }

  // A line of an event stream ends with a newline, with a carriage return and a
  // newline, or with a carriage return alone. A blank line is a terminator
  // behind a terminator; these are the ends of a text that are one.

  predicate Terminates(b: byte) { b == LF || b == CR }

  predicate EndsBareLf(b: seq<byte>) { |b| >= 2 && b[|b| - 1] == LF && b[|b| - 2] == LF }

  predicate EndsCrLf(b: seq<byte>) { |b| >= 3 && b[|b| - 1] == LF && b[|b| - 2] == CR && Terminates(b[|b| - 3]) }

  predicate EndsLoneCr(b: seq<byte>) { |b| >= 2 && b[|b| - 1] == CR && Terminates(b[|b| - 2]) }

  predicate EndsBlank(b: seq<byte>) { EndsBareLf(b) || EndsCrLf(b) || EndsLoneCr(b) }

  /** The slice before filled the buffer without a newline, so its line goes on in
      this one. */
  predicate WithinALongLine(body: seq<byte>, marks: seq<Mark>, k: nat)
    requires k < |marks|
  {
    && k > 0 && marks[k].sent - marks[k - 1].sent >= BUFFER
    && 0 < marks[k].sent <= |body| && body[marks[k].sent - 1] != LF
  }

  /** A slice starts behind a newline, unless it starts the body or a long line
      goes on. */
  lemma StartsBehindANewline(body: seq<byte>, marks: seq<Mark>, k: nat)
    requires Trace(body, marks) && k < |marks| && marks[k].sent < |body| && !WithinALongLine(body, marks, k)
    ensures marks[k].sent == 0 || body[marks[k].sent - 1] == LF
  {
    if k > 0 {
      var before := marks[k - 1].sent;
      assert marks[k - 1 + 1] == Next(body, marks[k - 1]);
      assert marks[k].sent == before + |SliceAt(body, before)|;
      if before < |body| {
        SliceShape(body, before);
      }
    }
  }

  /** Which slices a blank line can end with, in every case. */
  lemma BlankLineSlices(body: seq<byte>, marks: seq<Mark>, k: nat)
    requires Trace(body, marks) && k + 1 < |marks| && marks[k].sent < |body|
    ensures marks[k + 1].sent <= |body|
    ensures var out, one := body[..marks[k + 1].sent], marks[k + 1].sent == marks[k].sent + 1;
      && (EndsBareLf(out) ==> one)
      && (EndsCrLf(out) && one ==> WithinALongLine(body, marks, k))
      && (EndsLoneCr(out) && out[|out| - 2] == LF ==> one && marks[k + 1].sent == |body|)
      && (EndsLoneCr(out) && out[|out| - 2] == CR && one ==> WithinALongLine(body, marks, k))
  {
    FlushedExactlyBehindOneByte(body, marks, k);
    var from := marks[k].sent;
    SliceShape(body, from);
    var out, line := body[..marks[k + 1].sent], SliceAt(body, from);
    assert |out| == from + |line|;
    assert forall j :: 0 <= j < |out| ==> out[j] == body[j];
    assert |line| >= 2 ==> line[|line| - 2] == out[|out| - 2];
    assert line[|line| - 1] == out[|out| - 1];
    if !WithinALongLine(body, marks, k) {
      StartsBehindANewline(body, marks, k);
    }
  }

  /** The flush is meant for the end of an event. While the stream goes on and its
      lines fit the buffer, it comes behind a blank line if and only if that is a
      bare newline: behind one that ends with a carriage return, alone or in
      front of the newline, the event is kept back until more is read. */
  lemma BlankLinesAreFlushedExactlyWhenBare(body: seq<byte>, marks: seq<Mark>, k: nat)
    requires Trace(body, marks) && k + 1 < |marks| && marks[k + 1].sent < |body|
    requires EndsBlank(body[..marks[k + 1].sent]) && !WithinALongLine(body, marks, k)
    ensures marks[k + 1].flushed == marks[k + 1].sent <==> EndsBareLf(body[..marks[k + 1].sent])
  {
    assert marks[k + 1] == Next(body, marks[k]);
    FlushedExactlyBehindOneByte(body, marks, k);
    BlankLineSlices(body, marks, k);
  }

  lemma NoLfThen(front: seq<byte>, rest: seq<byte>)
    requires NoLf(front) && |front| + 1 <= BUFFER
    ensures Cut(front + [LF] + rest) == |front| + 1
  {
    var b := front + [LF] + rest;
    assert b[..|front|] == front;
    NewlineIsThere(b, |front|);
  }

  /** An event with carriage returns, for any line: sent whole, and nothing of it
      flushed, while the next bytes are awaited. */
  lemma CrLfEventWaits(line: seq<byte>, next: seq<byte>) returns (marks: seq<Mark>)
    requires NoLf(line) && 1 <= |line| < BUFFER - 2
    ensures var event := line + [CR, LF] + [CR, LF];
      && Trace(event + next, marks)
      && EndsBlank(event) && marks[|marks| - 1] == Mark(|event|, 0)
  {
    var event := line + [CR, LF] + [CR, LF];
    var body := event + next;
    marks := [Mark(0, 0), Mark(|line| + 2, 0), Mark(|line| + 4, 0)];
    assert NoLf(line + [CR]) && body[0..] == (line + [CR]) + [LF] + ([CR, LF] + next);
    NoLfThen(line + [CR], [CR, LF] + next);
    assert body[|line| + 2..] == [CR] + [LF] + next;
    NoLfThen([CR], next);
    assert marks[1] == Next(body, marks[0]) && marks[2] == Next(body, marks[1]);
  }
}
