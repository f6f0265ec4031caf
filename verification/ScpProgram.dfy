/**
 The SCP client as its loops run: the download with its buffer and directory stack, the recursive
 upload, and both ends of the acknowledgement exchange.
 */
module ScpProgram {
  import opened Common
  import opened ScpHeader
  import opened ScpFiles
  import opened ScpReceiver
  import opened ScpSession
  import opened ScpLockstep

  // ----- the download -----

  /** The next data on the channel, other messages skipped; none when the channel closes first. */
  function NextData(msgs: seq<Msg>): (r: (Option<Bytes>, seq<Msg>))
    ensures |r.1| <= |msgs| && (r.0.Some? ==> |r.1| < |msgs|)
  {
    if msgs == [] then (None, [])
    else match msgs[0]
      case Data(b) => (Some(b), msgs[1..])
      case Other => NextData(msgs[1..])
      case _ => (None, msgs[1..])
  }

  /** The content of a file of `left` more bytes and what follows its terminator; none when cut short. */
  function TakePayload(msgs: seq<Msg>, got: Bytes, left: nat): (r: (Option<Bytes>, seq<Msg>))
    ensures |r.1| <= |msgs|
    decreases |msgs|
  {
    var (b, rest) := NextData(msgs);
    if left == 0 then (Some(got), rest)
    else if b.None? then (None, rest)
    else if |b.value| <= left then TakePayload(rest, got + b.value, left - |b.value|)
    else (Some(got + b.value[..left]), rest)
  }

  /** What is found after the content: in the chunk that held its end, or in the next one. */
  function Extra(msgs: seq<Msg>, left: nat): Bytes
    decreases |msgs|
  {
    var (b, rest) := NextData(msgs);
    if b.None? then []
    else if left == 0 then b.value
    else if |b.value| <= left then Extra(rest, left - |b.value|)
    else b.value[left..]
  }

  /** A leading zero byte is the terminator. */
  function WithoutTerminator(extra: Bytes): Bytes {
    if extra != [] && extra[0] == 0 then extra[1..] else extra
  }

  /** One turn of the payload loop, which takes what it still wants of the next chunk. */
  lemma PayloadTurn(msgs: seq<Msg>, got: Bytes, left: nat)
    requires left > 0
    ensures var (b, rest) := NextData(msgs);
            if b.None? then TakePayload(msgs, got, left) == (None, rest)
            else
              var take := Min(left, |b.value|);
              if take == |b.value| then
                && TakePayload(msgs, got, left) == TakePayload(rest, got + b.value[..take], left - take)
                && Extra(msgs, left) == Extra(rest, left - take)
              else
                && TakePayload(msgs, got, left) == (Some(got + b.value[..take]), rest)
                && Extra(msgs, left) == b.value[take..]
  {
    hide NextData;
    var (b, rest) := NextData(msgs);
    if b.Some? {
      assert b.value[..|b.value|] == b.value;
    }
  }

  lemma AllTaken(msgs: seq<Msg>, got: Bytes)
    ensures TakePayload(msgs, got, 0) == (Some(got), NextData(msgs).1)
    ensures Extra(msgs, 0) == if NextData(msgs).0.Some? then NextData(msgs).0.value else []
  {
  }

  /** However the content and its terminator are cut, the terminator is all that is found after the content. */
  lemma {:induction false} OnlyTheTerminatorIsExtra(rest: Bytes, chunks: seq<Bytes>)
    requires Flatten(chunks) == rest + [0] && NoneEmpty(chunks)
    ensures Extra(Datas(chunks), |rest|) == [0] && WithoutTerminator(Extra(Datas(chunks), |rest|)) == []
    decreases |chunks|
  {
    var c, more := chunks[0], chunks[1..];
    assert Datas(chunks)[1..] == Datas(more);
    FirstChunk(c, Flatten(more), rest);
    if |c| <= |rest| && rest != [] {
      OnlyTheTerminatorIsExtra(rest[|c|..], more);
    }
  }

  /**
   What follows a header: of a file, its content and terminator; otherwise nothing. With the
   messages left and the acknowledgements sent.
   */
  function Settle(r: Rx, msgs: seq<Msg>): (Rx, seq<Msg>, nat) {
    match r
    case AtTerminator(stack, fs) => (AtHeader(stack, fs), NextData(msgs).1, 1)
    case InFile(stack, base, dest, got, left) =>
      var (c, rest) := TakePayload(msgs, got, left);
      if c.None? then (Failed(ClosedInTransfer), rest, 0)
      else (AtHeader(stack, base[dest := File(c.value)]), rest, 1)
    case _ => (r, msgs, 0)
  }

  /** The receiver over everything the channel still yields and its end, with the acknowledgements sent. */
  function Outcome(r: Rx, msgs: seq<Msg>): (Rx, nat)
    decreases |msgs|
  {
    if msgs == [] then (AtEnd(r), if r.AtTerminator? then 1 else 0)
    else
      var (r1, n) := OnMsg(r, msgs[0]);
      Later(n, Outcome(r1, msgs[1..]))
  }

  function Later(n: nat, o: (Rx, nat)): (Rx, nat) { (o.0, n + o.1) }

  lemma {:induction false} OverIsOver(r: Rx, msgs: seq<Msg>)
    requires r.Finished? || r.Failed?
    ensures Outcome(r, msgs) == (r, 0)
    decreases |msgs|
  {
    if msgs != [] {
      OverIsOver(r, msgs[1..]);
    }
  }

  /** Waiting for data goes on as the receiver goes on with that data, or with the end. */
  lemma {:induction false} DataDecides(r: Rx, msgs: seq<Msg>)
    requires r.AtHeader? || r.InFile? || r.AtTerminator?
    ensures var (b, rest) := NextData(msgs);
            Outcome(r, msgs) ==
            if b.Some? then Later(OnMsg(r, Data(b.value)).1, Outcome(OnMsg(r, Data(b.value)).0, rest))
            else if r.AtTerminator? then Later(1, Outcome(AtHeader(r.stack, r.fs), rest))
            else (AtEnd(r), 0)
    decreases |msgs|
  {
    if msgs != [] {
      match msgs[0] {
        case Other => DataDecides(r, msgs[1..]);
        case Data(_) =>
        case _ =>
          if !r.AtTerminator? {
            OverIsOver(AtEnd(r), msgs[1..]);
          }
      }
    }
  }

  /** The payload loop takes off the channel what the receiver takes. */
  lemma {:induction false} PayloadDecides(stack: seq<Path>, base: Fs, dest: Path, got: Bytes, left: nat, msgs: seq<Msg>)
    ensures var (c, rest) := TakePayload(msgs, got, left);
            Outcome(Awaiting(stack, base, dest, got, left), msgs) ==
            if c.None? then (Failed(ClosedInTransfer), 0)
            else Later(1, Outcome(AtHeader(stack, base[dest := File(c.value)]), rest))
    decreases |msgs|
  {
    var r := Awaiting(stack, base, dest, got, left);
    DataDecides(r, msgs);
    var (b, rest) := NextData(msgs);
    if left > 0 && b.Some? && |b.value| <= left {
      assert b.value[..|b.value|] == b.value;
      assert OnMsg(r, Data(b.value)) == (Awaiting(stack, base, dest, got + b.value, left - |b.value|), 0);
      PayloadDecides(stack, base, dest, got + b.value, left - |b.value|, rest);
    }
  }

  lemma SettleDecides(r: Rx, msgs: seq<Msg>)
    requires r.InFile? ==> r.remaining > 0
    ensures var (r', rest, k) := Settle(r, msgs);
            Outcome(r, msgs) == Later(k, Outcome(r', rest))
  {
    if r.AtTerminator? {
      DataDecides(r, msgs);
    } else if r.InFile? {
      PayloadDecides(r.stack, r.base, r.dest, r.got, r.remaining, msgs);
      if Settle(r, msgs).0.Failed? {
        OverIsOver(Settle(r, msgs).0, Settle(r, msgs).1);
      }
    }
  }

  /** A header chunk and what follows it. */
  function Round(stack: seq<Path>, fs: Fs, buf: Bytes, msgs: seq<Msg>): (Rx, seq<Msg>, nat) {
    var (r1, n) := OnHeader(stack, fs, buf);
    var (r, rest, k) := Settle(r1, msgs);
    (r, rest, n + k)
  }

  /** The header loop, one round after another. */
  lemma RoundDecides(stack: seq<Path>, fs: Fs, msgs: seq<Msg>)
    ensures var (b, rest) := NextData(msgs);
            Outcome(AtHeader(stack, fs), msgs) ==
            if b.None? then (Finished(stack, fs), 0)
            else if b.value == [] then Outcome(AtHeader(stack, fs), rest)
            else var (r, rest', k) := Round(stack, fs, b.value, rest); Later(k, Outcome(r, rest'))
  {
    hide ParseHeader;
    hide Outcome;
    DataDecides(AtHeader(stack, fs), msgs);
    var (b, rest) := NextData(msgs);
    if b.Some? {
      SettleDecides(OnHeader(stack, fs, b.value).0, rest);
    }
  }

  /** The first bytes of a header that are not of a file or a directory. */
  lemma OtherHeaders(stack: seq<Path>, fs: Fs, buf: Bytes)
    requires buf != []
    ensures OnHeader(stack, fs, buf).0 == Failed(RemoteError) <==> buf[0] == 2
    ensures buf[0] == 1 ==> OnHeader(stack, fs, buf) == (AtHeader(stack, fs), 1)
    ensures buf[0] == 'E' as int ==>
              OnHeader(stack, fs, buf) == (AtHeader(if |stack| > 1 then stack[..|stack| - 1] else stack, fs), 1)
    ensures buf[0] !in {1, 2, 'C' as int, 'D' as int, 'E' as int} ==>
              OnHeader(stack, fs, buf) == (Failed(UnexpectedByte), 0)
  {
    hide ParseHeader;
  }

  /**
   What a header of a file or a directory is answered that leads nowhere: nothing if it does not parse
   or the directory cannot be made, one acknowledgement if it is the file that cannot be made.
   */
  lemma RefusedHeaders(stack: seq<Path>, fs: Fs, buf: Bytes)
    requires buf != [] && (buf[0] == 'C' as int || buf[0] == 'D' as int)
    ensures var h := ParseHeader(buf);
            && (h.Rejected? ==> OnHeader(stack, fs, buf) == (Failed(BadHeader(h.error)), 0))
            && (h.Parsed? && buf[0] == 'C' as int && CreateFile(fs, Join(Top(stack), h.name)).None? ==>
                  OnHeader(stack, fs, buf) == (Failed(CannotCreate), 1))
            && (h.Parsed? && buf[0] == 'D' as int && CreateDirAll(fs, Join(Top(stack), h.name)).None? ==>
                  OnHeader(stack, fs, buf) == (Failed(CannotCreate), 0))
  {
    hide ParseHeader;
  }

  /** Where a header is awaited, an error ends the download at once, and a warning is acknowledged and passed over. */
  lemma ErrorsAndWarnings(stack: seq<Path>, fs: Fs, msgs: seq<Msg>)
    ensures var (b, rest) := NextData(msgs);
            b.Some? && b.value != [] ==>
              && (b.value[0] == 2 ==> Outcome(AtHeader(stack, fs), msgs) == (Failed(RemoteError), 0))
              && (b.value[0] == 1 ==>
                    Outcome(AtHeader(stack, fs), msgs) == Later(1, Outcome(AtHeader(stack, fs), rest)))
  {
    hide ParseHeader;
    hide Outcome;
    RoundDecides(stack, fs, msgs);
    var (b, rest) := NextData(msgs);
    if b.Some? && b.value != [] {
      OtherHeaders(stack, fs, b.value);
      if b.value[0] == 2 {
        OverIsOver(Failed(RemoteError), rest);
      }
    }
  }

  /** Whatever the channel yields, a download ends with a remote error only if some data begins with a 2. */
  lemma {:induction false} RemoteErrorIsTold(r: Rx, msgs: seq<Msg>)
    requires r != Failed(RemoteError) && Outcome(r, msgs).0 == Failed(RemoteError)
    ensures exists i :: 0 <= i < |msgs| && msgs[i].Data? && msgs[i].bytes != [] && msgs[i].bytes[0] == 2
    decreases |msgs|
  {
    hide ParseHeader;
    var r1 := OnMsg(r, msgs[0]).0;
    if r1 != Failed(RemoteError) {
      RemoteErrorIsTold(r1, msgs[1..]);
      var i :| 0 <= i < |msgs[1..]| && msgs[1..][i].Data? && msgs[1..][i].bytes != [] && msgs[1..][i].bytes[0] == 2;
      assert msgs[i + 1] == msgs[1..][i];
    }
  }

  lemma RefusedSettles(f: Fault, msgs: seq<Msg>)
    ensures Settle(Failed(f), msgs) == (Failed(f), msgs, 0)
  {
  }

  /** After a file header that was taken: the file cannot be made, is cut short, or holds the payload. */
  lemma FileSettles(stack: seq<Path>, fs: Fs, dest: Path, size: nat, msgs: seq<Msg>)
    ensures var (r, rest, k) := Settle(BeginFile(stack, fs, dest, size), msgs);
            var (c, rest') := TakePayload(msgs, [], size);
            if CreateFile(fs, dest).None? then r == Failed(CannotCreate) && k == 0
            else if c.None? then r == Failed(ClosedInTransfer) && k == 0
            else r == AtHeader(stack, CreateFile(fs, dest).value[dest := File(c.value)]) && rest == rest' && k == 1
  {
    hide NextData;
    if size == 0 && CreateFile(fs, dest).Some? {
      assert CreateFile(fs, dest).value[dest := File([])] == CreateFile(fs, dest).value;
    }
  }

  class Download {
    var inbox: seq<Msg>      // what the channel will yield
    var acks: nat            // zero bytes sent
    var fs: Fs
    var dirStack: seq<Path>
    var buf: Bytes

    constructor (msgs: seq<Msg>, disk: Fs)
      ensures inbox == msgs && acks == 0 && fs == disk && dirStack == [] && buf == []
    {
      inbox, acks, fs, dirStack, buf := msgs, 0, disk, [], [];
    }

    /** `recv_data`: appends the next data to the buffer, or says that there is none. */
    method RecvData() returns (more: bool)
      modifies `inbox, `buf
      ensures inbox == NextData(old(inbox)).1
      ensures more == NextData(old(inbox)).0.Some?
      ensures buf == old(buf) + (if more then NextData(old(inbox)).0.value else [])
    {
      while inbox != []
        invariant NextData(inbox) == NextData(old(inbox)) && buf == old(buf)
        decreases |inbox|
      {
        var m := inbox[0];
        inbox := inbox[1..];
        match m {
          case Data(b) => buf := buf + b; return true;
          case Other =>
          case _ => return false;
        }
      }
      return false;
    }

    /** `download_file_data`: the file, then the terminator, out of the buffer or off the channel. */
    method DownloadFileData(dest: Path, size: nat) returns (fault: Option<Fault>)
      modifies `inbox, `buf, `fs
      ensures |inbox| <= |old(inbox)|
      ensures CreateFile(old(fs), dest).None? ==> fault == Some(CannotCreate)
      ensures CreateFile(old(fs), dest).Some? ==>
        var (c, rest) := TakePayload(old(inbox), [], size);
        && inbox == rest
        && fault == (if c.Some? then None else Some(ClosedInTransfer))
        && (c.Some? ==> fs == CreateFile(old(fs), dest).value[dest := File(c.value)])
        && (c.Some? ==> buf == WithoutTerminator(Extra(old(inbox), size)))
    {
      hide NextData;
      hide TakePayload;
      hide Extra;
      var remaining := size;
      var created := CreateFile(fs, dest);
      if created.None? {
        return Some(CannotCreate);
      }
      fs := created.value;
      buf := [];
      var got: Bytes := [];
      assert fs[dest := File(got)] == fs;
      while remaining > 0
        invariant fs == created.value[dest := File(got)]
        invariant buf != [] ==> remaining == 0 && TakePayload(old(inbox), [], size) == (Some(got), inbox)
        invariant buf != [] ==> Extra(old(inbox), size) == buf
        invariant buf == [] ==> TakePayload(inbox, got, remaining) == TakePayload(old(inbox), [], size)
        invariant buf == [] ==> Extra(inbox, remaining) == Extra(old(inbox), size)
        decreases |inbox|
      {
        buf := [];
        ghost var (b, rest) := NextData(inbox);
        PayloadTurn(inbox, got, remaining);
        var more := RecvData();
        if !more {
          return Some(ClosedInTransfer);
        }
        assert buf == b.value;
        var take := Min(remaining, |buf|);
        assert take == |buf| ==> buf[..take] == buf;
        got, buf, remaining := got + buf[..take], buf[take..], remaining - take;
        fs := fs[dest := File(got)];
      }
      if buf == [] {
        AllTaken(inbox, got);
      }
      TakeTerminator();
      return None;
    }

    /** The zero byte after the content: found with it in the buffer, or next on the channel. */
    method TakeTerminator()
      modifies `inbox, `buf
      ensures inbox == if old(buf) == [] then NextData(old(inbox)).1 else old(inbox)
      ensures buf == WithoutTerminator(
                if old(buf) != [] then old(buf)
                else if NextData(old(inbox)).0.Some? then NextData(old(inbox)).0.value else [])
    {
      if buf == [] {
        var _ := RecvData();
      }
      if buf != [] && buf[0] == 0 {
        buf := buf[1..];
      }
    }

    method HandleFile(h: ParseResult) returns (fault: Option<Fault>)
      requires dirStack != []
      modifies `inbox, `buf, `fs, `acks
      ensures |inbox| <= |old(inbox)|
      ensures var (r1, n) := OnFileHeader(dirStack, old(fs), h);
              var (r, rest, k) := Settle(r1, old(inbox));
              && acks == old(acks) + n + k
              && (if r.Failed? then fault == Some(r.fault)
                  else r == AtHeader(dirStack, fs) && inbox == rest && fault.None? && buf == [])
    {
      hide NextData;
      hide Extra;
      hide WithoutTerminator;
      hide TakePayload;
      hide CreateFile;
      hide Settle;
      hide BeginFile;
      if h.Rejected? {
        RefusedSettles(BadHeader(h.error), inbox);
        return Some(BadHeader(h.error));
      }
      buf := [];
      acks := acks + 1;
      var dest := Join(dirStack[|dirStack| - 1], h.name);
      FileSettles(dirStack, fs, dest, h.size, inbox);
      fault := DownloadFileData(dest, h.size);
      if fault.None? {
        acks := acks + 1;
        buf := [];
      }
    }

    method HandleDir(h: ParseResult) returns (fault: Option<Fault>)
      requires dirStack != []
      modifies `buf, `fs, `acks, `dirStack
      ensures dirStack != []
      ensures var (r, n) := OnDirHeader(old(dirStack), old(fs), h);
              && acks == old(acks) + n
              && (if r.Failed? then fault == Some(r.fault)
                  else r == AtHeader(dirStack, fs) && fault.None? && buf == [])
    {
      if h.Rejected? {
        return Some(BadHeader(h.error));
      }
      buf := [];
      var dest := Join(dirStack[|dirStack| - 1], h.name);
      var made := CreateDirAll(fs, dest);
      if made.None? {
        return Some(CannotCreate);
      }
      fs := made.value;
      dirStack := dirStack + [dest];
      acks := acks + 1;
      return None;
    }

    /** One round of the header loop, with the header line in the buffer. */
    method HandleHeader() returns (fault: Option<Fault>)
      requires buf != [] && dirStack != []
      modifies this
      ensures dirStack != [] && |inbox| <= |old(inbox)|
      ensures var (r, rest, k) := Round(old(dirStack), old(fs), old(buf), old(inbox));
              && acks == old(acks) + k
              && (if r.Failed? then fault == Some(r.fault)
                  else r == AtHeader(dirStack, fs) && inbox == rest && fault.None? && buf == [])
    {
      var kind := buf[0];
      fault := None;
      if kind == LETTER_C {
        fault := HandleFile(ParseHeader(buf));
      } else if kind == LETTER_D {
        fault := HandleDir(ParseHeader(buf));
      } else if kind == LETTER_E {
        buf := [];
        if |dirStack| > 1 {
          dirStack := dirStack[..|dirStack| - 1];
        }
        acks := acks + 1;
      } else if kind == 1 {
        buf := [];
        acks := acks + 1;
      } else if kind == 2 {
        fault := Some(RemoteError);
      } else {
        fault := Some(UnexpectedByte);
      }
    }

    /** `scp_download`: after an opening zero, headers until the channel closes. */
    method ScpDownload(local: Path) returns (fault: Option<Fault>)
      requires acks == 0 && buf == []
      modifies this
      ensures acks >= 1
      ensures Outcome(AtHeader([local], old(fs)), old(inbox)) ==
              (if fault.None? then Finished(dirStack, fs) else Failed(fault.value), acks - 1)
    {
      hide Round;
      hide NextData;
      hide Outcome;
      acks := 1;
      dirStack := [local];
      ghost var start := Outcome(AtHeader(dirStack, fs), inbox);
      while true
        invariant buf == [] && acks >= 1 && dirStack != []
        invariant start == Later(acks - 1, Outcome(AtHeader(dirStack, fs), inbox))
        decreases |inbox|
      {
        RoundDecides(dirStack, fs, inbox);
        ghost var (b, rest) := NextData(inbox);
        var more := RecvData();
        if !more {
          return None;
        }
        assert buf == b.value;
        if buf == [] {
          continue;
        }
        ghost var (r, rest', k) := Round(dirStack, fs, buf, inbox);
        fault := HandleHeader();
        if fault.Some? {
          OverIsOver(r, rest');
          return;
        }
      }
    }
  }

  // ----- what a download of an uploaded tree leaves -----

  lemma {:induction false} StageOutcome(r: Rx, chunks: seq<Bytes>, more: seq<Bytes>)
    requires GoodStage(r, chunks)
    ensures Outcome(r, Datas(chunks + more)) == Later(1, Outcome(StageEnd(r, chunks), Datas(more)))
    decreases |chunks|
  {
    hide OnMsg;
    assert (chunks + more)[0] == chunks[0] && (chunks + more)[1..] == chunks[1..] + more;
    assert Datas(chunks + more)[1..] == Datas(chunks[1..] + more);
    if |chunks| > 1 {
      StageOutcome(OnMsg(r, Data(chunks[0])).0, chunks[1..], more);
    } else {
      assert chunks[1..] + more == more;
    }
  }

  lemma {:induction false} PlanOutcome(r: Rx, plan: seq<seq<Bytes>>, goal: Rx)
    requires Leads(r, plan, goal)
    ensures Outcome(r, Datas(Flatten(plan))) == Later(|plan|, Outcome(goal, []))
    decreases |plan|
  {
    hide Outcome;
    hide OnMsg;
    hide StageEnd;
    hide GoodStage;
    if plan == [] {
      assert Datas([]) == [];
    } else {
      StageOutcome(r, plan[0], Flatten(plan[1..]));
      PlanOutcome(StageEnd(r, plan[0]), plan[1..], goal);
    }
  }

  /**
   The download program, given what an upload of a tree puts on the channel, ends well with exactly
   that tree added to its files, its stack at the root, and one acknowledgement for every burst.
   */
  lemma DownloadOfUpload(t: Tree, name: Name, local: Path, fs: Fs, plan: seq<seq<Bytes>>)
    requires ValidTree(t) && ValidName(name) && Delivered(Bursts(t, name), plan)
    requires NoFileOnTheWay(fs, local) && (t.Leaf? ==> DirsUpTo(fs, local)) && Fits(fs, Layout(t, local + [name]))
    ensures Outcome(AtHeader([local], fs), Datas(Flatten(plan))) ==
            (Finished([local], MakeDirs(fs, local) + Layout(t, local + [name])), |Bursts(t, name)|)
  {
    hide Outcome;
    hide Bursts;
    UploadLeadsToGoal(t, name, local, fs, plan);
    PlanOutcome(AtHeader([local], fs), plan, Goal(t, name, local, fs));
    NothingFollows([local], Goal(t, name, local, fs).fs);
  }

  lemma NothingFollows(stack: seq<Path>, fs: Fs)
    ensures Outcome(AtHeader(stack, fs), []) == (Finished(stack, fs), 0)
  {
  }

  // ----- the upload -----

  /** What `recv_response` makes of the channel: whether it is answered, and what is left. */
  function Response(msgs: seq<Msg>): (bool, seq<Msg>) {
    if msgs == [] then (false, [])
    else match msgs[0]
      case Data(b) => if b == [] then Response(msgs[1..]) else (b[0] == 0 || b[0] == 1, msgs[1..])
      case Other => Response(msgs[1..])
      case _ => (false, msgs[1..])
  }

  /** Messages that `recv_response` passes over. */
  predicate PassedOver(m: Msg) { m.Other? || (m.Data? && m.bytes == []) }

  /** The first message that is an answer. */
  predicate FirstAnswer(msgs: seq<Msg>, i: nat) {
    i < |msgs| && !PassedOver(msgs[i]) && forall j :: 0 <= j < i ==> PassedOver(msgs[j])
  }

  /** Data that begins with a zero, or with a one and a warning; not with a two, which is an error. */
  predicate GoodAnswer(m: Msg) { m.Data? && m.bytes != [] && (m.bytes[0] == 0 || m.bytes[0] == 1) }

  /** The response is the first answer: good exactly if that is data beginning with 0 or 1, the rest being left. */
  lemma {:induction false} ResponseIsFirstAnswer(msgs: seq<Msg>, i: nat)
    ensures FirstAnswer(msgs, i) ==> Response(msgs) == (GoodAnswer(msgs[i]), msgs[i + 1..])
    ensures (forall j :: 0 <= j < |msgs| ==> PassedOver(msgs[j])) ==> Response(msgs) == (false, [])
  {
    if msgs != [] && PassedOver(msgs[0]) {
      var rest := msgs[1..];
      assert forall j :: 0 <= j < |rest| ==> rest[j] == msgs[j + 1];
      if i > 0 {
        ResponseIsFirstAnswer(rest, i - 1);
        assert FirstAnswer(msgs, i) ==> rest[i - 1 + 1..] == msgs[i + 1..];
      } else {
        ResponseIsFirstAnswer(rest, 0);
      }
    }
  }

  /** The answers on a channel. */
  function Answers(msgs: seq<Msg>): seq<Msg> {
    if msgs == [] then []
    else (if PassedOver(msgs[0]) then [] else [msgs[0]]) + Answers(msgs[1..])
  }

  lemma {:induction false} ResponseTakesOneAnswer(msgs: seq<Msg>)
    ensures var all := Answers(msgs);
            if all == [] then Response(msgs) == (false, [])
            else Response(msgs).0 == GoodAnswer(all[0]) && Answers(Response(msgs).1) == all[1..]
  {
    if msgs != [] {
      var all := Answers(msgs);
      if PassedOver(msgs[0]) {
        ResponseTakesOneAnswer(msgs[1..]);
        assert all == Answers(msgs[1..]);
      } else {
        assert all[0] == msgs[0] && all[1..] == Answers(msgs[1..]);
      }
    }
  }

  /**
   What the sender finds on its disk: of each file the size that the file system tells first and the
   content that is read after the answer to the header.
   */
  datatype Disk = DiskFile(size: nat, content: Bytes) | DiskDir(entries: Listing)
  datatype Listing = NoMore | Listed(name: Name, disk: Disk, rest: Listing)

  function DiskBursts(d: Disk, name: Name): seq<Burst>
    decreases d
  {
    match d
    case DiskFile(size, c) => FileBursts(size, c, name)
    case DiskDir(es) => [[DirHeader(name)]] + ListingBursts(es) + [[END_LINE]]
  }

  function ListingBursts(es: Listing): seq<Burst>
    decreases es
  {
    match es
    case NoMore => []
    case Listed(n, d, rest) => DiskBursts(d, n) + ListingBursts(rest)
  }

  /** The tree of the contents that are read. */
  function TreeOf(d: Disk): Tree {
    match d
    case DiskFile(_, c) => Leaf(c)
    case DiskDir(es) => Node(ForestOf(es))
  }

  function ForestOf(es: Listing): Forest {
    match es
    case NoMore => Empty
    case Listed(n, d, rest) => Cons(n, TreeOf(d), ForestOf(rest))
  }

  /** No file changes its size between being measured and being read. */
  predicate Steady(d: Disk) {
    match d
    case DiskFile(size, c) => size == |c|
    case DiskDir(es) => SteadyAll(es)
  }

  predicate SteadyAll(es: Listing) { es.NoMore? || (Steady(es.disk) && SteadyAll(es.rest)) }

  lemma HeaderTellsSize(a: nat, b: nat, name: Name)
    requires FileHeader(a, name) == FileHeader(b, name)
    ensures a == b
  {
    hide PrintU64;
    var front := [LETTER_C] + MODE_0644 + [SPACE];
    HeaderLength(a, name);
    HeaderLength(b, name);
    assert PrintU64(a) == FileHeader(a, name)[|front|..|front| + |PrintU64(a)|];
    assert PrintU64(b) == FileHeader(b, name)[|front|..|front| + |PrintU64(b)|];
    DigitsTellNumber(a, b);
  }

  lemma {:induction false} DigitsTellNumber(a: nat, b: nat)
    requires PrintU64(a) == PrintU64(b)
    ensures a == b
  {
    var s, t := PrintU64(a), PrintU64(b);
    assert a >= 10 ==> s[..|s| - 1] == PrintU64(a / 10) && s[|s| - 1] == ZERO + a % 10;
    assert b >= 10 ==> t[..|t| - 1] == PrintU64(b / 10) && t[|t| - 1] == ZERO + b % 10;
    if a >= 10 && b >= 10 {
      DigitsTellNumber(a / 10, b / 10);
    }
  }

  lemma HeaderLength(size: nat, name: Name)
    ensures |FileHeader(size, name)| == 8 + |PrintU64(size)| + |name|
  {
    hide PrintU64;
  }

  lemma SplitEqual<T>(a: seq<T>, b: seq<T>, c: seq<T>, d: seq<T>)
    requires |a| == |c|
    ensures a + b == c + d <==> a == c && b == d
  {
    if a + b == c + d {
      assert a == (a + b)[..|a|] && c == (c + d)[..|a|];
      assert b == (a + b)[|a|..] && d == (c + d)[|a|..];
    }
  }

  /** The sender sends the bursts of the tree it reads exactly if no file changes its size on the way. */
  lemma {:induction false} SteadyExactly(d: Disk, name: Name)
    ensures |DiskBursts(d, name)| == |Bursts(TreeOf(d), name)|
    ensures DiskBursts(d, name) == Bursts(TreeOf(d), name) <==> Steady(d)
    decreases d
  {
    match d
    case DiskFile(size, c) =>
      hide FileHeader;
      if DiskBursts(d, name) == Bursts(TreeOf(d), name) {
        assert FileBursts(size, c, name)[0][0] == FileBursts(|c|, c, name)[0][0];
        HeaderTellsSize(size, |c|, name);
      }
    case DiskDir(es) =>
      ListingExactly(es);
      var last: seq<Burst> := [[END_LINE]];
      var first: seq<Burst> := [[DirHeader(name)]];
      SplitEqual(first, ListingBursts(es), first, BurstsAll(ForestOf(es)));
      SplitEqual(first + ListingBursts(es), last, first + BurstsAll(ForestOf(es)), last);
  }

  lemma {:induction false} ListingExactly(es: Listing)
    ensures |ListingBursts(es)| == |BurstsAll(ForestOf(es))|
    ensures ListingBursts(es) == BurstsAll(ForestOf(es)) <==> SteadyAll(es)
    decreases es
  {
    match es
    case NoMore =>
    case Listed(n, d, rest) =>
      SteadyExactly(d, n);
      ListingExactly(rest);
      SplitEqual(DiskBursts(d, n), ListingBursts(rest), Bursts(TreeOf(d), n), BurstsAll(ForestOf(rest)));
  }

  /** Sending bursts, a response awaited after each; stops at the first that is not answered well. */
  function Converse(bursts: seq<Burst>, msgs: seq<Msg>): (bool, seq<Bytes>, seq<Msg>)
    decreases |bursts|
  {
    if bursts == [] then (true, [], msgs)
    else
      var (ok, rest) := Response(msgs);
      if !ok then (false, bursts[0], rest)
      else
        var (ok', sent, rest') := Converse(bursts[1..], rest);
        (ok', bursts[0] + sent, rest')
  }

  lemma {:induction false} ConverseConcat(a: seq<Burst>, b: seq<Burst>, msgs: seq<Msg>)
    ensures var (ok, sent, rest) := Converse(a, msgs);
            Converse(a + b, msgs) ==
            if !ok then (ok, sent, rest)
            else var (ok', sent', rest') := Converse(b, rest); (ok', sent + sent', rest')
    decreases |a|
  {
    hide Response;
    if a == [] {
      assert a + b == b;
      assert [] + Converse(b, msgs).1 == Converse(b, msgs).1;
    } else {
      assert (a + b)[0] == a[0] && (a + b)[1..] == a[1..] + b;
      var (ok, rest) := Response(msgs);
      if ok {
        ConverseConcat(a[1..], b, rest);
        var (ok', sent, rest') := Converse(a[1..], rest);
        Assoc(a[0], sent, Converse(b, rest').1);
      }
    }
  }

  /** An upload that ends well has sent every burst; one that does not has sent some and no part of the next. */
  lemma {:induction false} ConverseSends(bursts: seq<Burst>, msgs: seq<Msg>) returns (k: nat)
    ensures k <= |bursts|
    ensures Converse(bursts, msgs).1 == Flatten(bursts[..k])
    ensures Converse(bursts, msgs).0 ==> k == |bursts|
    ensures !Converse(bursts, msgs).0 ==> k > 0
    decreases |bursts|
  {
    hide Response;
    if bursts == [] {
      k := 0;
    } else {
      var (ok, rest) := Response(msgs);
      if !ok {
        k := 1;
        assert bursts[..1][1..] == [] && bursts[..1][0] == bursts[0];
        assert Flatten(bursts[..1][1..]) == [];
      } else {
        var k' := ConverseSends(bursts[1..], rest);
        k := k' + 1;
        assert bursts[..k][1..] == bursts[1..][..k'];
      }
    }
  }

  /** An upload ends well exactly if every burst has an answer of its own and every one of them is good. */
  lemma {:induction false} UploadNeedsGoodAnswers(bursts: seq<Burst>, msgs: seq<Msg>)
    ensures Converse(bursts, msgs).0 <==>
            |Answers(msgs)| >= |bursts| && forall i :: 0 <= i < |bursts| ==> GoodAnswer(Answers(msgs)[i])
    decreases |bursts|
  {
    hide Response;
    hide GoodAnswer;
    hide Answers;
    var all := Answers(msgs);
    ResponseTakesOneAnswer(msgs);
    if bursts != [] && all != [] && GoodAnswer(all[0]) {
      UploadNeedsGoodAnswers(bursts[1..], Response(msgs).1);
      assert forall i :: 0 < i < |all| ==> all[i] == all[1..][i - 1];
    }
  }

  /**
   At the first answer that is not good, such as an error, or at the end of the channel, the upload
   fails, having sent the bursts up to the one that was answered like that and nothing after it.
   */
  lemma {:induction false} UploadStopsAtBadAnswer(bursts: seq<Burst>, msgs: seq<Msg>, k: nat)
    requires k < |bursts| && k <= |Answers(msgs)| && (k < |Answers(msgs)| ==> !GoodAnswer(Answers(msgs)[k]))
    requires forall i :: 0 <= i < k ==> GoodAnswer(Answers(msgs)[i])
    ensures !Converse(bursts, msgs).0 && Converse(bursts, msgs).1 == Flatten(bursts[..k + 1])
    decreases |bursts|
  {
    hide Response;
    hide GoodAnswer;
    hide Answers;
    var all := Answers(msgs);
    ResponseTakesOneAnswer(msgs);
    if k == 0 {
      assert bursts[..1] == [bursts[0]];
      FlattenOne(bursts[0]);
    } else {
      UploadStopsAtBadAnswer(bursts[1..], Response(msgs).1, k - 1);
      assert bursts[..k + 1][1..] == bursts[1..][..k];
    }
  }

  /** As many zero bytes as there are bursts carry an upload through, and no fewer. */
  lemma {:induction false} AcksNeeded(bursts: seq<Burst>, acks: nat)
    ensures Converse(bursts, Datas(seq(acks, _ => [0 as byte]))).0 <==> acks >= |bursts|
    decreases |bursts|
  {
    if bursts != [] && acks > 0 {
      var msgs := Datas(seq(acks, _ => [0 as byte]));
      assert msgs[1..] == Datas(seq(acks - 1, _ => [0 as byte]));
      assert msgs[0] == Data([0]);
      AcksNeeded(bursts[1..], acks - 1);
    }
  }

  class Upload {
    var inbox: seq<Msg>
    var sent: seq<Bytes>

    constructor (msgs: seq<Msg>)
      ensures inbox == msgs && sent == []
    {
      inbox, sent := msgs, [];
    }

    method RecvResponse() returns (ok: bool)
      modifies `inbox
      ensures (ok, inbox) == Response(old(inbox))
    {
      while inbox != []
        invariant Response(inbox) == Response(old(inbox))
        decreases |inbox|
      {
        var m := inbox[0];
        inbox := inbox[1..];
        match m {
          case Data(b) =>
            if b != [] {
              return b[0] == 0 || b[0] == 1;
            }
          case Other =>
          case _ => return false;
        }
      }
      return false;
    }

    /** Sends one burst and awaits its response. */
    method Exchange(burst: Burst) returns (ok: bool)
      modifies this
      ensures (ok, inbox) == Response(old(inbox)) && sent == old(sent) + burst
    {
      sent := sent + burst;
      ok := RecvResponse();
    }

    /** `size` is what the file system says first, `content` what is read after the answer. */
    method UploadFile(size: nat, content: Bytes, name: Name) returns (ok: bool)
      modifies this
      ensures (ok, sent, inbox) == After(old(sent), Converse(FileBursts(size, content, name), old(inbox)))
    {
      ghost var was, msgs := sent, inbox;
      ghost var header, payload: Burst := [FileHeader(size, name)], [content, TERMINATOR];
      FileConversation(header, payload, msgs);
      ok := Exchange([FileHeader(size, name)]);
      if ok {
        ok := Exchange([content, TERMINATOR]);
        Assoc(was, header, payload);
      }
    }

    /** A directory entry, as the loop of `upload_dir` treats it. */
    method UploadEntry(d: Disk, name: Name) returns (ok: bool)
      modifies this
      ensures (ok, sent, inbox) == After(old(sent), Converse(DiskBursts(d, name), old(inbox)))
      decreases d, 1
    {
      if d.DiskDir? {
        ok := UploadDir(d.entries, name);
      } else {
        ok := UploadFile(d.size, d.content, name);
      }
    }

    method UploadDir(entries: Listing, name: Name) returns (ok: bool)
      modifies this
      ensures (ok, sent, inbox) == After(old(sent), Converse(DiskBursts(DiskDir(entries), name), old(inbox)))
      decreases entries, 0
    {
      hide Converse;
      hide DiskBursts;
      hide ListingBursts;
      ghost var was, msgs := sent, inbox;
      DirConversation(entries, name, was, msgs);
      ok := Exchange([DirHeader(name)]);
      if !ok {
        return;
      }
      var left := entries;
      ghost var all := After(was, Converse(DiskBursts(DiskDir(entries), name), msgs));
      while left.Listed?
        invariant left == entries || left < entries
        invariant all == After(sent, Converse(ListingBursts(left) + [[END_LINE]], inbox))
        decreases left
      {
        EntryConversation(left, sent, inbox);
        ok := UploadEntry(left.disk, left.name);
        if !ok {
          return;
        }
        left := left.rest;
      }
      EndConversation(sent, inbox);
      ok := Exchange([END_LINE]);
    }

    /** After the first answer a directory is refused unless the upload is recursive. */
    method ScpUpload(d: Disk, name: Name, recursive: bool) returns (ok: bool)
      modifies this
      ensures d.DiskDir? && !recursive ==> !ok && sent == old(sent) && inbox == Response(old(inbox)).1
      ensures d.DiskFile? || recursive ==>
        (ok, sent, inbox) == After(old(sent), Converse([[]] + DiskBursts(d, name), old(inbox)))
    {
      ghost var was, msgs := sent, inbox;
      ghost var opening: Burst := [];
      assert ([opening] + DiskBursts(d, name))[1..] == DiskBursts(d, name);
      assert was + opening == was;
      ok := RecvResponse();
      if ok && d.DiskDir? && !recursive {
        return false;
      }
      if ok {
        assert opening + Converse(DiskBursts(d, name), inbox).1 == Converse(DiskBursts(d, name), inbox).1;
        ok := UploadEntry(d, name);
      }
    }
  }

  /** The state of an upload after a conversation. */
  function After(was: seq<Bytes>, c: (bool, seq<Bytes>, seq<Msg>)): (bool, seq<Bytes>, seq<Msg>) {
    (c.0, was + c.1, c.2)
  }

  lemma OneExchange(burst: Burst, rest: seq<Burst>, was: seq<Bytes>, msgs: seq<Msg>)
    ensures var (ok, left) := Response(msgs);
            After(was, Converse([burst] + rest, msgs)) ==
            if ok then After(was + burst, Converse(rest, left)) else (false, was + burst, left)
  {
    hide Response;
    assert ([burst] + rest)[1..] == rest;
    var (ok, left) := Response(msgs);
    Assoc(was, burst, Converse(rest, left).1);
  }

  lemma FileConversation(header: Burst, payload: Burst, msgs: seq<Msg>)
    ensures var (ok, left) := Response(msgs);
            Converse([header, payload], msgs) ==
            if ok then (Response(left).0, header + payload, Response(left).1) else (false, header, left)
  {
    hide Response;
    var two: seq<Burst>, one: seq<Burst> := [header, payload], [payload];
    assert two[0] == header && two[1..] == one;
    var (ok, left) := Response(msgs);
    if ok {
      assert one[0] == payload && one[1..] == [] && payload + [] == payload;
      var (ok', left') := Response(left);
      assert Converse(one, left) == (ok', payload, left');
    }
  }

  lemma DirConversation(entries: Listing, name: Name, was: seq<Bytes>, msgs: seq<Msg>)
    ensures var (ok, left) := Response(msgs);
            After(was, Converse(DiskBursts(DiskDir(entries), name), msgs)) ==
            if ok then After(was + [DirHeader(name)], Converse(ListingBursts(entries) + [[END_LINE]], left))
            else (false, was + [DirHeader(name)], left)
  {
    hide Response;
    hide Converse;
    assert DiskBursts(DiskDir(entries), name) == [[DirHeader(name)]] + (ListingBursts(entries) + [[END_LINE]]);
    OneExchange([DirHeader(name)], ListingBursts(entries) + [[END_LINE]], was, msgs);
  }

  lemma EntryConversation(es: Listing, was: seq<Bytes>, msgs: seq<Msg>)
    requires es.Listed?
    ensures var (ok, sent, left) := After(was, Converse(DiskBursts(es.disk, es.name), msgs));
            After(was, Converse(ListingBursts(es) + [[END_LINE]], msgs)) ==
            if ok then After(sent, Converse(ListingBursts(es.rest) + [[END_LINE]], left)) else (false, sent, left)
  {
    hide Converse;
    var a, b := DiskBursts(es.disk, es.name), ListingBursts(es.rest) + [[END_LINE]];
    assert ListingBursts(es) + [[END_LINE]] == a + b;
    ConverseConcat(a, b, msgs);
    Assoc(was, Converse(a, msgs).1, Converse(b, Converse(a, msgs).2).1);
  }

  lemma EndConversation(was: seq<Bytes>, msgs: seq<Msg>)
    ensures var (ok, left) := Response(msgs);
            After(was, Converse(ListingBursts(NoMore) + [[END_LINE]], msgs)) == (ok, was + [END_LINE], left)
  {
    hide Response;
    var last: seq<Burst> := [[END_LINE]];
    assert ListingBursts(NoMore) + last == last && last[1..] == [];
    assert last[0] + [] == last[0];
  }
}
