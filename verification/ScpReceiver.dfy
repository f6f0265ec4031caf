/**
 The downloading side of SCP: the loop of `scp_download` with its directory stack, and the
 payload loop of `download_file_data`, seen as a machine that reacts to one channel message at a
 time, and as the loops the program runs.
 */
module ScpReceiver {
  import opened Common
  import opened ScpHeader
  import opened ScpFiles

  /** What `channel.wait()` yields; the end of a message list is a closed channel. */
  datatype Msg = Data(bytes: Bytes) | Eof | Closed | Other

  datatype Fault = BadHeader(error: ParseError) | CannotCreate | RemoteError | UnexpectedByte | ClosedInTransfer

  /** Where the receiver waits. In `InFile` the file holds `got` so far. */
  datatype Rx =
    | AtHeader(stack: seq<Path>, fs: Fs)
    | InFile(stack: seq<Path>, base: Fs, dest: Path, got: Bytes, remaining: nat)
    | AtTerminator(stack: seq<Path>, fs: Fs)
    | Finished(stack: seq<Path>, fs: Fs)
    | Failed(fault: Fault)

  function Top(stack: seq<Path>): Path {
    if stack == [] then [] else stack[|stack| - 1]
  }

  /** Entering `download_file_data`: the file is created, and an empty one has no payload to wait for. */
  function BeginFile(stack: seq<Path>, fs: Fs, dest: Path, size: nat): Rx {
    match CreateFile(fs, dest)
    case None => Failed(CannotCreate)
    case Some(fs') => if size == 0 then AtTerminator(stack, fs') else InFile(stack, fs', dest, [], size)
  }

  function OnFileHeader(stack: seq<Path>, fs: Fs, h: ParseResult): (Rx, nat) {
    match h
    case Rejected(e) => (Failed(BadHeader(e)), 0)
    case Parsed(size, name) => (BeginFile(stack, fs, Join(Top(stack), name), size), 1)
  }

  function OnDirHeader(stack: seq<Path>, fs: Fs, h: ParseResult): (Rx, nat) {
    match h
    case Rejected(e) => (Failed(BadHeader(e)), 0)
    case Parsed(_, name) =>
      var dest := Join(Top(stack), name);
      match CreateDirAll(fs, dest)
      case None => (Failed(CannotCreate), 0)
      case Some(fs') => (AtHeader(stack + [dest], fs'), 1)
  }

  /** One header chunk; the number is how many acknowledgements are sent. */
  function OnHeader(stack: seq<Path>, fs: Fs, buf: Bytes): (Rx, nat) {
    if buf == [] then (AtHeader(stack, fs), 0)
    else if buf[0] == LETTER_C then OnFileHeader(stack, fs, ParseHeader(buf))
    else if buf[0] == LETTER_D then OnDirHeader(stack, fs, ParseHeader(buf))
    else if buf[0] == LETTER_E then (AtHeader(if |stack| > 1 then stack[..|stack| - 1] else stack, fs), 1)
    else if buf[0] == 1 then (AtHeader(stack, fs), 1)
    else if buf[0] == 2 then (Failed(RemoteError), 0)
    else (Failed(UnexpectedByte), 0)
  }

  /** One payload chunk: what goes past the announced size counts as the terminator. */
  function OnPayload(r: Rx, buf: Bytes): (Rx, nat)
    requires r.InFile?
  {
    var take := Min(r.remaining, |buf|);
    var got := r.got + buf[..take];
    if take < r.remaining then (r.(got := got, remaining := r.remaining - take), 0)
    else if take == |buf| then (AtTerminator(r.stack, r.base[r.dest := File(got)]), 0)
    else (AtHeader(r.stack, r.base[r.dest := File(got)]), 1)
  }

  function OnMsg(r: Rx, m: Msg): (Rx, nat) {
    if m.Other? || r.Failed? || r.Finished? then (r, 0)
    else match r
      case AtHeader(stack, fs) => if m.Data? then OnHeader(stack, fs, m.bytes) else (Finished(stack, fs), 0)
      case InFile(_, _, _, _, _) => if m.Data? then OnPayload(r, m.bytes) else (Failed(ClosedInTransfer), 0)
      // whatever arrives is taken for the terminator, even nothing
      case AtTerminator(stack, fs) => (AtHeader(stack, fs), 1)
  }

  /** The receiver after a list of messages, and how many acknowledgements it sent meanwhile. */
  function Feed(r: Rx, msgs: seq<Msg>): (Rx, nat) {
    if msgs == [] then (r, 0)
    else
      var (r1, n1) := Feed(r, msgs[..|msgs| - 1]);
      var (r2, n2) := OnMsg(r1, msgs[|msgs| - 1]);
      (r2, n1 + n2)
  }

  lemma FeedNext(r: Rx, msgs: seq<Msg>, m: Msg)
    ensures Feed(r, msgs + [m]).0 == OnMsg(Feed(r, msgs).0, m).0
    ensures Feed(r, msgs + [m]).1 == Feed(r, msgs).1 + OnMsg(Feed(r, msgs).0, m).1
  {
    assert (msgs + [m])[..|msgs|] == msgs;
  }

  lemma {:induction false} FeedConcat(r: Rx, a: seq<Msg>, b: seq<Msg>)
    ensures Feed(r, a + b).0 == Feed(Feed(r, a).0, b).0
    ensures Feed(r, a + b).1 == Feed(r, a).1 + Feed(Feed(r, a).0, b).1
    decreases |b|
  {
    if b == [] {
      assert a + b == a;
    } else {
      var init, last := b[..|b| - 1], b[|b| - 1];
      FeedConcat(r, a, init);
      FeedNext(r, a + init, last);
      LastApart(a, b);
    }
  }

  lemma LastApart(a: seq<Msg>, b: seq<Msg>)
    requires b != []
    ensures a + b == (a + b[..|b| - 1]) + [b[|b| - 1]]
  {
  }

  /** The channel closes for good: the end of the transfer, or a fault in the middle of a file. */
  function AtEnd(r: Rx): Rx {
    match r
    case AtHeader(stack, fs) => Finished(stack, fs)
    case AtTerminator(stack, fs) => Finished(stack, fs)
    case InFile(_, _, _, _, _) => Failed(ClosedInTransfer)
    case _ => r
  }

  // ----- the payload of one file -----

  function Datas(chunks: seq<Bytes>): (r: seq<Msg>)
    ensures |r| == |chunks| && forall i :: 0 <= i < |r| ==> r[i] == Data(chunks[i])
  {
    seq(|chunks|, i requires 0 <= i < |chunks| => Data(chunks[i]))
  }

  /** The receiver right after the header of a file of `left` more bytes, `got` of which are written. */
  function Awaiting(stack: seq<Path>, base: Fs, dest: Path, got: Bytes, left: nat): Rx {
    if left == 0 then AtTerminator(stack, base[dest := File(got)]) else InFile(stack, base, dest, got, left)
  }

  /** The chunk that carries the terminator is not empty when the content ends with the chunk before. */
  predicate TerminatorShows(chunks: seq<Bytes>, left: nat) {
    if chunks == [] then false
    else if left == 0 then chunks[0] != []
    else if |chunks[0]| > left then true
    else TerminatorShows(chunks[1..], left - |chunks[0]|)
  }

  lemma FeedCons(r: Rx, chunks: seq<Bytes>)
    requires chunks != []
    ensures Feed(r, Datas(chunks)).0 == Feed(OnMsg(r, Data(chunks[0])).0, Datas(chunks[1..])).0
    ensures Feed(r, Datas(chunks)).1 ==
              OnMsg(r, Data(chunks[0])).1 + Feed(OnMsg(r, Data(chunks[0])).0, Datas(chunks[1..])).1
  {
    var m := Data(chunks[0]);
    assert Datas(chunks) == [m] + Datas(chunks[1..]);
    FeedConcat(r, [m], Datas(chunks[1..]));
    assert [m] == [] + [m];
    FeedNext(r, [], m);
  }

  lemma {:induction false} NothingMore(stack: seq<Path>, fs: Fs, chunks: seq<Bytes>)
    requires Flatten(chunks) == []
    ensures Feed(AtHeader(stack, fs), Datas(chunks)) == (AtHeader(stack, fs), 0)
  {
    if chunks != [] {
      FeedCons(AtHeader(stack, fs), chunks);
      NothingMore(stack, fs, chunks[1..]);
    }
  }

  lemma {:induction false} LateTerminatorFails(stack: seq<Path>, fs: Fs, chunks: seq<Bytes>)
    requires Flatten(chunks) == [0]
    ensures Feed(AtHeader(stack, fs), Datas(chunks)).0 == Failed(UnexpectedByte)
  {
    FeedCons(AtHeader(stack, fs), chunks);
    if chunks[0] == [] {
      LateTerminatorFails(stack, fs, chunks[1..]);
    } else {
      assert chunks[0] == [0];
      FailureLasts(UnexpectedByte, Datas(chunks[1..]));
    }
  }

  lemma {:induction false} FailureLasts(f: Fault, msgs: seq<Msg>)
    ensures Feed(Failed(f), msgs) == (Failed(f), 0)
    decreases |msgs|
  {
    if msgs != [] {
      FailureLasts(f, msgs[..|msgs| - 1]);
    }
  }

  lemma PayloadStep(stack: seq<Path>, base: Fs, dest: Path, got: Bytes, rest: Bytes, chunk: Bytes)
    requires rest != [] && chunk <= rest
    ensures OnMsg(Awaiting(stack, base, dest, got, |rest|), Data(chunk)) ==
            (Awaiting(stack, base, dest, got + chunk, |rest| - |chunk|), 0)
  {
    assert chunk[..|chunk|] == chunk;
  }

  lemma PayloadEnd(stack: seq<Path>, base: Fs, dest: Path, got: Bytes, rest: Bytes)
    ensures OnMsg(Awaiting(stack, base, dest, got, |rest|), Data(rest + [0])) ==
              (AtHeader(stack, base[dest := File(got + rest)]), 1)
  {
    if rest == [] {
      assert got + rest == got;
    } else {
      assert (rest + [0])[..|rest|] == rest;
    }
  }

  /** Even an empty chunk is taken for the terminator. */
  lemma TakenForTerminator(stack: seq<Path>, fs: Fs, chunk: Bytes)
    ensures OnMsg(AtTerminator(stack, fs), Data(chunk)) == (AtHeader(stack, fs), 1)
  {
  }

  /** What the first chunk of a payload can be: everything, or a part of the content. */
  lemma FirstChunk(c: Bytes, more: Bytes, rest: Bytes)
    requires c + more == rest + [0]
    ensures |c| > |rest| ==> c == rest + [0] && more == []
    ensures |c| <= |rest| ==> c <= rest && more == rest[|c|..] + [0]
  {
    if |c| > |rest| {
      assert |c| == |rest| + 1;
    } else {
      assert c == (c + more)[..|c|] == (rest + [0])[..|c|];
      assert more == (c + more)[|c|..] == (rest + [0])[|c|..];
    }
  }

  /**
   For every split of a file's remaining bytes and the terminating zero into chunks, empty ones
   included, the payload loop writes exactly the content, takes exactly one terminator, sends one
   acknowledgement and is back at the header with nothing left over, if and only if the chunk in
   which the terminator is looked for is not empty.
   */
  lemma {:induction false} PayloadIsExact(stack: seq<Path>, base: Fs, dest: Path, got: Bytes, rest: Bytes,
          chunks: seq<Bytes>)
    requires Flatten(chunks) == rest + [0]
    ensures Feed(Awaiting(stack, base, dest, got, |rest|), Datas(chunks)) ==
              (AtHeader(stack, base[dest := File(got + rest)]), 1)
            <==> TerminatorShows(chunks, |rest|)
    decreases |chunks|
  {
    hide OnMsg;
    hide Feed;
    var c, more := chunks[0], chunks[1..];
    FeedCons(Awaiting(stack, base, dest, got, |rest|), chunks);
    FirstChunk(c, Flatten(more), rest);
    if |c| > |rest| {
      PayloadEnd(stack, base, dest, got, rest);
      NothingMore(stack, base[dest := File(got + rest)], more);
    } else if rest == [] {
      TakenForTerminator(stack, base[dest := File(got)], c);
      LateTerminatorFails(stack, base[dest := File(got)], more);
    } else {
      PayloadStep(stack, base, dest, got, rest, c);
      PayloadIsExact(stack, base, dest, got + c, rest[|c|..], more);
      assert got + c + rest[|c|..] == got + rest;
    }
  }

  /** A stage of the protocol: chunks none of which but the last is acknowledged, and that one once. */
  predicate GoodStage(r: Rx, chunks: seq<Bytes>)
    decreases |chunks|
  {
    && chunks != []
    && var (r1, n) := OnMsg(r, Data(chunks[0]));
       && !r1.Failed?
       && (if |chunks| == 1 then n == 1 else n == 0 && GoodStage(r1, chunks[1..]))
  }

  function StageEnd(r: Rx, chunks: seq<Bytes>): Rx
    decreases |chunks|
  {
    if chunks == [] then r else StageEnd(OnMsg(r, Data(chunks[0])).0, chunks[1..])
  }

  predicate NoneEmpty(chunks: seq<Bytes>) {
    forall i :: 0 <= i < |chunks| ==> chunks[i] != []
  }

  /** With non-empty chunks the payload of a file is a stage of its own. */
  lemma {:induction false} PayloadIsStage(stack: seq<Path>, base: Fs, dest: Path, got: Bytes, rest: Bytes,
          chunks: seq<Bytes>)
    requires Flatten(chunks) == rest + [0] && NoneEmpty(chunks)
    ensures GoodStage(Awaiting(stack, base, dest, got, |rest|), chunks)
    ensures StageEnd(Awaiting(stack, base, dest, got, |rest|), chunks) ==
              AtHeader(stack, base[dest := File(got + rest)])
    decreases |chunks|
  {
    var c, more := chunks[0], chunks[1..];
    FirstChunk(c, Flatten(more), rest);
    if |c| > |rest| {
      PayloadEnd(stack, base, dest, got, rest);
    } else {
      PayloadStep(stack, base, dest, got, rest, c);
      PayloadIsStage(stack, base, dest, got + c, rest[|c|..], more);
      assert got + c + rest[|c|..] == got + rest;
    }
  }

  /** A chunk at the header is answered or ends the transfer. */
  lemma HeaderIsNeverSilent(stack: seq<Path>, fs: Fs, chunks: seq<Bytes>)
    requires chunks != [] && chunks[0] != []
    ensures var (r, n) := Feed(AtHeader(stack, fs), Datas(chunks)); r.Failed? || n >= 1
  {
    hide ParseHeader;
    hide CreateFile;
    hide CreateDirAll;
    FeedCons(AtHeader(stack, fs), chunks);
    var r1 := OnMsg(AtHeader(stack, fs), Data(chunks[0])).0;
    if r1.Failed? {
      FailureLasts(r1.fault, Datas(chunks[1..]));
    }
  }

  /**
   Whatever bytes come in non-empty chunks after a header that announced `left` more: back at a
   header after a single acknowledgement, the receiver has written exactly the first `left` of them.
   */
  lemma {:induction false} SingleAckShape(stack: seq<Path>, base: Fs, dest: Path, got: Bytes, left: nat,
          chunks: seq<Bytes>)
    requires NoneEmpty(chunks)
    ensures var (r, n) := Feed(Awaiting(stack, base, dest, got, left), Datas(chunks));
            r.AtHeader? && n == 1 ==>
              |Flatten(chunks)| > left && r == AtHeader(stack, base[dest := File(got + Flatten(chunks)[..left])])
    decreases |chunks|
  {
    hide OnMsg;
    hide Feed;
    var r := Awaiting(stack, base, dest, got, left);
    if chunks == [] {
      NothingFed(r);
    } else {
      var c, more := chunks[0], chunks[1..];
      FeedCons(r, chunks);
      if |c| <= left {
        PayloadPart(stack, base, dest, got, left, c);
        SingleAckShape(stack, base, dest, got + c, left - |c|, more);
        if |Flatten(more)| >= left - |c| {
          assert got + c + Flatten(more)[..left - |c|] == got + (c + Flatten(more))[..left];
        }
      } else {
        PayloadLast(stack, base, dest, got, left, c);
        if more != [] {
          HeaderIsNeverSilent(stack, base[dest := File(got + c[..left])], more);
        } else {
          NothingFed(AtHeader(stack, base[dest := File(got + c[..left])]));
          assert c + [] == c;
        }
      }
    }
  }

  lemma NothingFed(r: Rx)
    ensures Feed(r, Datas([])) == (r, 0)
  {
    assert Datas([]) == [];
  }

  lemma PayloadPart(stack: seq<Path>, base: Fs, dest: Path, got: Bytes, left: nat, c: Bytes)
    requires c != [] && |c| <= left
    ensures OnMsg(Awaiting(stack, base, dest, got, left), Data(c)) ==
              (Awaiting(stack, base, dest, got + c, left - |c|), 0)
  {
    assert c[..|c|] == c;
  }

  lemma PayloadLast(stack: seq<Path>, base: Fs, dest: Path, got: Bytes, left: nat, c: Bytes)
    requires left < |c|
    ensures OnMsg(Awaiting(stack, base, dest, got, left), Data(c)) ==
              (AtHeader(stack, base[dest := File(got + c[..left])]), 1)
  {
    assert got + [] == got;
  }

  /**
   A file arrives whole exactly if the size announced is the size sent: in non-empty chunks, the
   content and its terminator leave that content and one acknowledgement if and only if it is.
   */
  lemma SizeMustMatch(stack: seq<Path>, base: Fs, dest: Path, size: nat, content: Bytes, chunks: seq<Bytes>)
    requires Flatten(chunks) == content + [0] && NoneEmpty(chunks)
    ensures Feed(Awaiting(stack, base, dest, [], size), Datas(chunks)) ==
              (AtHeader(stack, base[dest := File(content)]), 1)
            <==> size == |content|
  {
    assert [] + content == content;
    if size == |content| {
      TerminatorIsShown(chunks, content);
      PayloadIsExact(stack, base, dest, [], content, chunks);
    } else {
      SingleAckShape(stack, base, dest, [], size, chunks);
      var (r, n) := Feed(Awaiting(stack, base, dest, [], size), Datas(chunks));
      if r.AtHeader? && n == 1 {
        assert r.fs[dest] == File([] + Flatten(chunks)[..size]);
        assert |[] + Flatten(chunks)[..size]| == size;
      }
    }
  }

  lemma {:induction false} TerminatorIsShown(chunks: seq<Bytes>, rest: Bytes)
    requires Flatten(chunks) == rest + [0] && NoneEmpty(chunks)
    ensures TerminatorShows(chunks, |rest|)
    decreases |chunks|
  {
    var c, more := chunks[0], chunks[1..];
    FirstChunk(c, Flatten(more), rest);
    if rest != [] && |c| <= |rest| {
      TerminatorIsShown(more, rest[|c|..]);
    }
  }
}
