/**
  The process manager's objects: each method is one locked section, or one goroutine's loop, of the
  machine in module Processes.
 */
module ProcessManager {
  import opened Bytes
  import opened Options
  import opened Processes

  class Process {
    var inputCh: seq<bytes>
    var inputClosed: bool
    var inputCloseOnce: bool
    /** The channel is closed. */
    var shut: bool
    /** What the process was given, and whether its stdin was closed. */
    var stdin: bytes
    var stdinClosed: bool
    ghost var accepted: seq<bytes>
    ghost var failed: bool

    ghost function CurrentPipe(): Pipe
      reads this
    {
      Pipe(inputCh, inputClosed, inputCloseOnce, shut, false, accepted,
           if failed then Failed else if stdinClosed then Done else Receiving, stdin)
    }

    constructor ()
      ensures CurrentPipe() == Start({}).pipe
    {
      inputCh, inputClosed, inputCloseOnce, shut := [], false, false, false;
      stdin, stdinClosed, accepted, failed := [], false, [], false;
    }

    /** The locked section of Manager.Input. */
    method Input(data: bytes) returns (outcome: Outcome)
      requires PipeOk(CurrentPipe())
      modifies this`inputCh, this`accepted
      ensures PipeOk(CurrentPipe()) && (CurrentPipe(), outcome) == InputOp(old(CurrentPipe()), data)
    {
      InputKeepsPipe(CurrentPipe(), data);
      if inputClosed {
        return Ignored;
      }
      assert !shut; // the send cannot panic
      if |inputCh| < CAPACITY {
        inputCh, accepted := inputCh + [data], accepted + [data];
        return Queued;
      }
      return Full(|inputCh|);
    }

    method CloseInputCh()
      requires PipeOk(CurrentPipe())
      modifies this`inputClosed, this`inputCloseOnce, this`shut
      ensures PipeOk(CurrentPipe()) && CurrentPipe() == ShutOp(MarkOp(old(CurrentPipe())))
      ensures inputClosed && shut && inputCh == old(inputCh)
    {
      inputClosed := true;
      if !inputCloseOnce {
        inputCloseOnce := true;
        assert !shut; // the close cannot panic
        shut := true;
      }
    }

    /** What another goroutine does to the channel while the writer runs. */
    method Happen(arrival: Arrival)
      requires PipeOk(CurrentPipe())
      modifies this`inputCh, this`inputClosed, this`inputCloseOnce, this`shut, this`accepted
      ensures PipeOk(CurrentPipe()) && CurrentPipe().writer == old(CurrentPipe().writer)
      ensures CurrentPipe() ==
              match arrival
              case Sent(data) => InputOp(old(CurrentPipe()), data).0
              case Closing => ShutOp(MarkOp(old(CurrentPipe())))
    {
      match arrival
      case Sent(data) => var _ := Input(data);
      case Closing => CloseInputCh();
    }

    /** One turn of the writer: the first input goes to the process, which takes left more bytes. */
    method WriteFirst(left: nat) returns (ok: bool)
      requires PipeOk(CurrentPipe()) && CurrentPipe().writer == Receiving && inputCh != []
      modifies this`inputCh, this`stdin, this`failed
      ensures PipeOk(CurrentPipe()) && inputCh == old(inputCh[1..]) && failed == !ok
      ensures ok <==> |old(inputCh[0])| <= left
      ensures stdin == old(stdin) + old(inputCh[0])[..if ok then |old(inputCh[0])| else left]
      ensures !ok ==> |Flatten(accepted)| > |stdin| && stdin <= Flatten(accepted)
    {
      hide Flatten, InputOp;
      var data := inputCh[0];
      TakeKeepsPipe(CurrentPipe());
      ok := |data| <= left;
      if ok {
        WriteKeepsPipe(TakeOp(CurrentPipe()), |data|, true);
      } else {
        WriteKeepsPipe(TakeOp(CurrentPipe()), left, false);
        Short(CurrentPipe(), left);
      }
      inputCh, stdin, failed := inputCh[1..], stdin + data[..if ok then |data| else left], !ok;
    }

    /**
      inputWriter, while inputs arrive and somebody may close the channel. The process takes room more
      bytes before its end of the pipe is gone. It is given the accepted inputs in order, up to that
      point; stdin is closed exactly when the channel is and the process got them all, and otherwise
      the writer has failed, or waits with nothing left to write and nothing to arrive. Nothing that
      arrives is refused before a close, if there is room for all of it.
     */
    method InputWriter(room: nat, arrivals: seq<Arrival>) returns (ghost arrived: nat)
      requires PipeOk(CurrentPipe()) && CurrentPipe().writer == Receiving
      modifies this
      ensures PipeOk(CurrentPipe()) && stdin <= Flatten(accepted) && |stdin| <= old(|stdin|) + room
      ensures stdinClosed <==> shut && |Flatten(accepted)| <= old(|stdin|) + room
      ensures failed <==> |Flatten(accepted)| > old(|stdin|) + room
      ensures stdinClosed || !failed ==> stdin == Flatten(accepted)
      ensures failed ==> |stdin| == old(|stdin|) + room
      ensures arrived <= |arrivals| && (arrived == |arrivals| || failed || stdinClosed)
      ensures shut <==> old(shut) || Closing in arrivals[..arrived]
      ensures |old(inputCh)| + |arrivals| <= CAPACITY ==>
        accepted == old(accepted) + SentOpen(arrivals[..arrived], old(inputClosed))
    {
      hide Flatten, InputOp, ShutOp, MarkOp, SentOpen;
      var left: nat := room;
      var next := 0;
      arrived := 0;
      SentNothing(arrivals, inputClosed);
      while true
        invariant PipeOk(CurrentPipe()) && CurrentPipe().writer == Receiving && |stdin| + left == old(|stdin|) + room
        invariant next == arrived <= |arrivals|
        invariant shut <==> old(shut) || Closing in arrivals[..arrived]
        invariant inputClosed <==> old(inputClosed) || Closing in arrivals[..arrived]
        invariant |inputCh| <= |old(inputCh)| + arrived
        invariant |old(inputCh)| + |arrivals| <= CAPACITY ==>
          accepted == old(accepted) + SentOpen(arrivals[..arrived], old(inputClosed))
        decreases |arrivals| - next, |inputCh|
      {
        var more: bool := *;
        if next < |arrivals| && (more || (inputCh == [] && !shut)) {
          OneArrival(CurrentPipe(), arrivals, next, old(inputClosed));
          Happen(arrivals[next]);
          next, arrived := next + 1, arrived + 1;
        } else if inputCh != [] {
          var written := |inputCh[0]|;
          var ok := WriteFirst(left);
          if !ok {
            return;
          }
          left := left - written;
        } else {
          Drained(CurrentPipe());
          stdinClosed := shut;
          return;
        }
      }
    }
  }

  /** The inputs that arrive before the channel is closed. */
  function SentOpen(arrivals: seq<Arrival>, closed: bool): seq<bytes> {
    if arrivals == [] then [] else
    var init, last := arrivals[..|arrivals| - 1], arrivals[|arrivals| - 1];
    SentOpen(init, closed) + if last.Sent? && !closed && Closing !in init then [last.data] else []
  }

  lemma SentNothing(arrivals: seq<Arrival>, closed: bool)
    ensures SentOpen(arrivals[..0], closed) == []
  {
  }

  lemma OneArrival(p: Pipe, arrivals: seq<Arrival>, n: nat, closed: bool)
    requires PipeOk(p) && n < |arrivals| && (p.closed <==> closed || Closing in arrivals[..n])
    ensures Closing in arrivals[..n + 1] <==> Closing in arrivals[..n] || arrivals[n] == Closing
    ensures var after := match arrivals[n] case Sent(data) => InputOp(p, data).0 case Closing => ShutOp(MarkOp(p));
            && |after.queue| <= |p.queue| + 1
            && (after.closed <==> p.closed || arrivals[n] == Closing)
            && (after.shut <==> p.shut || arrivals[n] == Closing)
            && (|p.queue| < CAPACITY ==>
                  forall before :: p.accepted == before + SentOpen(arrivals[..n], closed) ==>
                    after.accepted == before + SentOpen(arrivals[..n + 1], closed))
  {
    assert arrivals[..n + 1] == arrivals[..n] + [arrivals[n]];
    assert arrivals[..n + 1][..n] == arrivals[..n];
    forall before | p.accepted == before + SentOpen(arrivals[..n], closed)
      ensures forall more :: p.accepted + more == before + (SentOpen(arrivals[..n], closed) + more)
    {
    }
  }

  datatype Arrival = Sent(data: bytes) | Closing

  lemma Short(p: Pipe, n: nat)
    requires PipeOk(p) && p.writer == Receiving && p.queue != [] && n < |p.queue[0]|
    ensures |Flatten(p.accepted)| > |p.stdin| + n
  {
    FlattenCons(p.queue);
  }

  lemma Drained(p: Pipe)
    requires PipeOk(p) && p.writer == Receiving && p.queue == []
    ensures p.stdin == Flatten(p.accepted)
  {
  }

  class Manager {
    var processes: map<string, Process>

    constructor ()
      ensures processes == map[]
    {
      processes := map[];
    }

    method Input(procId: string, data: bytes) returns (outcome: Option<Outcome>)
      requires procId in processes ==> PipeOk(processes[procId].CurrentPipe())
      modifies if procId in processes then {processes[procId]} else {}
      ensures outcome.Some? <==> procId in processes
      ensures outcome.Some? ==>
        (processes[procId].CurrentPipe(), outcome.value) == InputOp(old(processes[procId].CurrentPipe()), data)
    {
      if procId !in processes {
        return None;
      }
      var result := processes[procId].Input(data);
      outcome := Some(result);
    }

    method CloseInput(procId: string) returns (found: bool)
      requires procId in processes ==> PipeOk(processes[procId].CurrentPipe())
      modifies if procId in processes then {processes[procId]} else {}
      ensures found <==> procId in processes
      ensures found ==> processes[procId].CurrentPipe() == ShutOp(MarkOp(old(processes[procId].CurrentPipe())))
    {
      found := procId in processes;
      if found {
        processes[procId].CloseInputCh();
      }
    }

    /** readOutput: the payloads that it notifies, one for each read that returns bytes. */
    static method ReadOutput(results: seq<(bytes, bool)>) returns (sent: seq<bytes>)
      requires forall r :: r in results ==> |r.0| <= READ_SIZE
      ensures Flatten(sent) == UpToError(results)
      ensures forall data :: data in sent ==> 1 <= |data| <= READ_SIZE
    {
      sent := [];
      for i := 0 to |results|
        invariant Flatten(sent) + UpToError(results[i..]) == UpToError(results)
        invariant forall data :: data in sent ==> 1 <= |data| <= READ_SIZE
      {
        var (data, failed) := results[i];
        OneRead(results, i, sent);
        if data != [] {
          sent := sent + [data];
        }
        if failed {
          return;
        }
      }
    }
  }

  lemma OneRead(results: seq<(bytes, bool)>, i: nat, sent: seq<bytes>)
    requires i < |results|
    ensures var more := if results[i].1 then [] else UpToError(results[i + 1..]);
            Flatten(sent) + UpToError(results[i..]) == Flatten(sent + [results[i].0]) + more
    ensures results[i].0 == [] ==> Flatten(sent + [results[i].0]) == Flatten(sent)
  {
    var data := results[i].0;
    assert results[i..][1..] == results[i + 1..];
    FlattenSnoc(sent, data);
    var more := UpToError(results[i + 1..]);
    assert Flatten(sent) + (data + more) == (Flatten(sent) + data) + more;
  }

  /** What the reads return, up to and with the first one that reports an error. */
  function UpToError(results: seq<(bytes, bool)>): bytes {
    if results == [] then []
    else if results[0].1 then results[0].0
    else results[0].0 + UpToError(results[1..])
  }

  /** The data of the first n reads. */
  function DataOf(results: seq<(bytes, bool)>, n: nat): (r: seq<bytes>)
    requires n <= |results|
  {
    seq(n, i requires 0 <= i < n => results[i].0)
  }

  /** These are the data of all reads, if none fails, or of those up to the first that does. */
  lemma {:induction false} ReadsUpToError(results: seq<(bytes, bool)>, n: nat)
    requires n <= |results| && forall i :: 0 <= i < n - 1 ==> !results[i].1
    requires n == |results| || (n > 0 && results[n - 1].1)
    ensures UpToError(results) == Flatten(DataOf(results, n))
  {
    if n > 0 {
      FlattenCons(DataOf(results, n));
      if n > 1 || !results[0].1 {
        ReadsUpToError(results[1..], n - 1);
        assert DataOf(results, n)[1..] == DataOf(results[1..], n - 1);
      } else {
        assert DataOf(results, n)[1..] == [];
      }
    }
  }
}
