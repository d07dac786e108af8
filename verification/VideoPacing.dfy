/**
  The decode and pace loop of `client/send-video.cc`, run against an abstract decoder: each turn of the
  loop is told what the container, the decoder and the clock answered.
 */
module VideoPacing {
  import opened Options

  const NANOS: int := 1_000_000_000

  /** A clock reading, with its fields as the system fills them. */
  datatype Time = Time(sec: int, nsec: int) {
    function Total(): int { sec * NANOS + nsec }

    predicate Normal() { 0 <= nsec < NANOS }
  }

  class Timespec {
    var sec: int
    var nsec: int

    constructor (t: Time)
      ensures Now() == t
    {
      sec, nsec := t.sec, t.nsec;
    }

    ghost function Now(): Time
      reads this
    {
      Time(sec, nsec)
    }

    /** `add_nanos`: the carry loop stops at a whole second left in the nanosecond field. */
    method AddNanos(n: int)
      modifies this
      ensures Now().Total() == old(Now().Total()) + n
      ensures nsec == Carried(old(nsec) + n)
    {
      nsec := nsec + n;
      while nsec > NANOS
        invariant sec * NANOS + nsec == old(sec * NANOS + nsec) + n
        invariant Carried(nsec) == Carried(old(nsec) + n)
      {
        nsec := nsec - NANOS;
        sec := sec + 1;
      }
    }
  }

  /** What the carry loop leaves in the nanosecond field when `m` nanoseconds are put there. */
  function Carried(m: int): int { if m <= NANOS then m else 1 + (m - 1) % NANOS }

  /** The loop tests `>` and not `>=`: the field it leaves is a normal one unless the sum is a whole
      number of seconds, at least one, and then it is a full second. */
  lemma CarryIsNormalIff(m: int)
    requires m >= 0
    ensures 0 <= Carried(m) <= NANOS
    ensures Carried(m) == NANOS <==> m > 0 && m % NANOS == 0
    ensures Carried(m) < NANOS ==> Carried(m) == m % NANOS
  {
  }

  // ----- the sleep

  predicate Due(next: Time, now: Time) {
    now.sec < next.sec || (now.sec == next.sec && now.nsec < next.nsec)
  }

  function SleepTime(next: Time, now: Time): Time {
    var s := Time(next.sec - now.sec, next.nsec - now.nsec);
    if s.nsec < 0 then Time(s.sec - 1, s.nsec + NANOS) else s
  }

  /** The frame sleeps exactly when its deadline is still ahead, for exactly the time left, with
      non-negative fields. The nanosecond field is one the system call accepts unless the deadline
      carries a full second there and the clock reads a whole one. */
  lemma SleepIsTheTimeLeft(next: Time, now: Time)
    requires now.Normal() && 0 <= next.nsec <= NANOS
    ensures Due(next, now) <==> now.Total() < next.Total()
    ensures SleepTime(next, now).Total() == next.Total() - now.Total()
    ensures Due(next, now) ==> SleepTime(next, now).sec >= 0 && 0 <= SleepTime(next, now).nsec <= NANOS
    ensures SleepTime(next, now).Normal() <==> !(next.nsec == NANOS && now.nsec == 0)
  {
  }

  // ----- the loop

  datatype Read = EndOfInput | Packet(stream: int)

  /** One turn's answers: was there an interrupt, what did the container give, did the decoder take the
      packet, and at which clock readings would it hand over frames before it asks for more. */
  datatype Turn = Turn(interrupted: bool, read: Read, takes: bool, frames: seq<Time>) {
    ghost predicate Normal() { forall i :: 0 <= i < |frames| ==> frames[i].Normal() }
  }

  datatype Exit = Interrupted | Drained | StillPlaying

  /** A frame sent: its deadline, the clock when it was sent, and the sleep after it. */
  datatype Sent = Sent(deadline: Time, now: Time, sleep: Option<Time>)

  class Player {
    const videoStream: int
    const frameWait: int
    const start: Time
    var nextFrame: Timespec
    var decodeInFlight: int
    var stateReading: bool
    var frameCount: int
    ghost var accepted: int
    ghost var received: int
    ghost var log: seq<Sent>

    ghost predicate Valid()
      reads this, nextFrame
    {
      && frameWait >= 0
      && decodeInFlight == accepted - received >= 0
      && frameCount == received == |log|
      && nextFrame.Now().Total() == start.Total() + Beats(received, frameWait)
      && 0 <= nextFrame.nsec <= NANOS && (received > 0 && frameWait > 0 ==> nextFrame.nsec > 0)
      && forall k :: 0 <= k < |log| ==> Paced(log[k], start, frameWait, k)
    }

    constructor (videoStream: int, frameWait: int, start: Time)
      requires frameWait >= 0 && start.Normal()
      ensures Valid() && fresh(nextFrame) && accepted == received == 0 && stateReading && log == []
      ensures this.videoStream == videoStream && this.frameWait == frameWait && this.start == start
    {
      this.videoStream, this.frameWait, this.start := videoStream, frameWait, start;
      nextFrame := new Timespec(start);
      decodeInFlight, stateReading, frameCount := 0, true, 0;
      accepted, received, log := 0, 0, [];
    }

    /** One frame out of the decoder: move the deadline on, send, sleep until it. */
    method SendOne(now: Time)
      requires Valid() && decodeInFlight > 0 && now.Normal()
      modifies this, nextFrame
      ensures Valid() && nextFrame == old(nextFrame)
      ensures accepted == old(accepted) && received == old(received) + 1 && stateReading == old(stateReading)
      ensures |log| == |old(log)| + 1 && log[..|old(log)|] == old(log) && log[|old(log)|].now == now
    {
      decodeInFlight := decodeInFlight - 1;
      received := received + 1;
      nextFrame.AddNanos(frameWait);
      OneMoreBeat(received - 1, frameWait);
      frameCount := frameCount + 1;
      var next := Time(nextFrame.sec, nextFrame.nsec);
      SleepIsTheTimeLeft(next, now);
      var sleep := if Due(next, now) then Some(SleepTime(next, now)) else None;
      log := log + [Sent(next, now, sleep)];
    }

    /** The inner loop: while frames are owed and the decoder hands them over. */
    method Receive(frames: seq<Time>)
      requires Valid() && forall i :: 0 <= i < |frames| ==> frames[i].Normal()
      modifies this, nextFrame
      ensures Valid() && nextFrame == old(nextFrame)
      ensures accepted == old(accepted) && stateReading == old(stateReading)
      ensures received - old(received) == if |frames| <= old(decodeInFlight) then |frames| else old(decodeInFlight)
      ensures |log| == |old(log)| + received - old(received) && log[..|old(log)|] == old(log)
      ensures forall k :: 0 <= k < received - old(received) ==> log[|old(log)| + k].now == frames[k]
    {
      var i := 0;
      while decodeInFlight != 0 && i < |frames|
        invariant Valid() && nextFrame == old(nextFrame) && 0 <= i <= |frames|
        invariant accepted == old(accepted) && stateReading == old(stateReading)
        invariant received == old(received) + i
        invariant |log| == |old(log)| + i && log[..|old(log)|] == old(log)
        invariant forall k :: 0 <= k < i ==> log[|old(log)| + k].now == frames[k]
        decreases |frames| - i
      {
        SendOne(frames[i]);
        i := i + 1;
      }
    }

    /** One turn of the packet loop. */
    method Iterate(turn: Turn) returns (drained: bool)
      requires Valid() && turn.Normal()
      modifies this, nextFrame
      ensures Valid() && nextFrame == old(nextFrame)
      ensures stateReading == (old(stateReading) && turn.read.Packet?)
      ensures drained <==> !stateReading && old(decodeInFlight) == 0
      ensures drained ==> received == old(received) == accepted == old(accepted)
      ensures accepted == old(accepted) +
        if stateReading && turn.read == Packet(videoStream) && turn.takes then 1 else 0
      ensures received == if drained || (stateReading && turn.read != Packet(videoStream)) then old(received)
                          else Least(old(received) + |turn.frames|, accepted)
      ensures |log| == |old(log)| + received - old(received) && log[..|old(log)|] == old(log)
      ensures forall k :: 0 <= k < received - old(received) ==> log[|old(log)| + k].now == turn.frames[k]
    {
      drained := false;
      if stateReading && turn.read.EndOfInput? {
        stateReading := false;
      }
      if !stateReading && decodeInFlight == 0 {
        drained := true;
        return;
      }
      if stateReading && turn.read.stream != videoStream {
        return;
      }
      if stateReading {
        if turn.takes {
          decodeInFlight := decodeInFlight + 1;
          accepted := accepted + 1;
        }
      }
      Receive(turn.frames);
    }

    /** Where a run stands after `n` turns. */
    ghost predicate Stands(turns: seq<Turn>, n: nat)
      requires n <= |turns|
      reads this
    {
      && stateReading == !Ended(turns, n)
      && accepted == Accepted(turns, n, videoStream) && received == Delivered(turns, n, videoStream)
    }

    /** One turn of a run. */
    method PlayTurn(turns: seq<Turn>, i: nat) returns (drained: bool)
      requires Valid() && i < |turns| && Stands(turns, i)
      requires turns[i].Normal()
      modifies this, nextFrame
      ensures Valid() && nextFrame == old(nextFrame) && Stands(turns, i + 1)
      ensures drained <==> DrainsAt(turns, i, videoStream)
      ensures drained ==> frameCount == |log| == accepted && decodeInFlight == 0 && !stateReading
    {
      drained := Iterate(turns[i]);
    }

    /** One pass over the file, as far as the answers go: `used` of them. */
    method Play(turns: seq<Turn>) returns (exit: Exit, ghost used: nat)
      requires Valid() && accepted == received == 0 && stateReading
      requires forall i :: 0 <= i < |turns| ==> turns[i].Normal()
      modifies this, nextFrame
      ensures Valid() && used <= |turns|
      ensures Stands(turns, used)
      ensures exit == Drained ==> frameCount == |log| == accepted && decodeInFlight == 0 && !stateReading
      ensures Left(turns, exit, used, videoStream)
    {
      for i := 0 to |turns|
        invariant Valid() && nextFrame == old(nextFrame)
        invariant Stands(turns, i) && Quiet(turns, i, videoStream)
      {
        if turns[i].interrupted {
          LeftInterrupted(turns, i, videoStream);
          return Interrupted, i;
        }
        var drained := PlayTurn(turns, i);
        if drained {
          LeftDrained(turns, i, videoStream);
          return Drained, i + 1;
        }
        QuietStep(turns, i, videoStream);
      }
      LeftPlaying(turns, videoStream);
      exit, used := StillPlaying, |turns|;
    }
  }

  /** So many whole frame times. */
  function Beats(k: int, frameWait: int): int { k * frameWait }

  lemma OneMoreBeat(k: int, frameWait: int)
    ensures Beats(k + 1, frameWait) == Beats(k, frameWait) + frameWait && Beats(0, frameWait) == 0
  {
  }

  function Least(a: int, b: int): int { if a <= b then a else b }

  // ----- a run in plain counting

  /** The container has run out within the first `n` turns. */
  function Ended(turns: seq<Turn>, n: nat): bool
    requires n <= |turns|
  {
    n > 0 && (Ended(turns, n - 1) || turns[n - 1].read.EndOfInput?)
  }

  lemma {:induction false} EndedMeans(turns: seq<Turn>, n: nat)
    requires n <= |turns|
    ensures Ended(turns, n) <==> exists i :: 0 <= i < n && turns[i].read.EndOfInput?
  {
    if n > 0 { EndedMeans(turns, n - 1); }
  }

  /** Packets the decoder took in the first `n` turns: those of the video stream, before the end of input. */
  function Accepted(turns: seq<Turn>, n: nat, stream: int): nat
    requires n <= |turns|
  {
    if n == 0 then 0
    else
      var t := turns[n - 1];
      Accepted(turns, n - 1, stream) + if !Ended(turns, n) && t.read == Packet(stream) && t.takes then 1 else 0
  }

  /** Frames sent in the first `n` turns: a packet of another stream sends none, and any other turn as many
      as are offered, up to those accepted. */
  function Delivered(turns: seq<Turn>, n: nat, stream: int): (d: nat)
    requires n <= |turns|
    ensures d <= Accepted(turns, n, stream)
  {
    if n == 0 then 0
    else
      var before, t := Delivered(turns, n - 1, stream), turns[n - 1];
      if !Ended(turns, n) && t.read != Packet(stream) then before
      else Least(before + |t.frames|, Accepted(turns, n, stream))
  }

  /** Turn `i` finds the input ended and every accepted packet's frame sent. */
  ghost predicate DrainsAt(turns: seq<Turn>, i: nat, stream: int)
    requires i < |turns|
  {
    Ended(turns, i + 1) && Delivered(turns, i, stream) == Accepted(turns, i, stream)
  }

  ghost predicate NoDrainBefore(turns: seq<Turn>, n: nat, stream: int)
    requires n <= |turns|
  {
    forall j: nat {:trigger DrainsAt(turns, j, stream)} :: j < n ==> !DrainsAt(turns, j, stream)
  }

  /** Why a run stopped after `used` turns: at the first interrupt or drain, whichever came first, or for
      want of answers. */
  ghost predicate Left(turns: seq<Turn>, exit: Exit, used: nat, stream: int)
    requires used <= |turns|
  {
    && (forall j: nat :: j < used ==> !turns[j].interrupted)
    && (used > 0 ==> NoDrainBefore(turns, used - 1, stream))
    && match exit
       case Interrupted => used < |turns| && turns[used].interrupted && (used > 0 ==> !DrainsAt(turns, used - 1, stream))
       case Drained => used > 0 && DrainsAt(turns, used - 1, stream)
       case StillPlaying => used == |turns| && (used > 0 ==> !DrainsAt(turns, used - 1, stream))
  }

  /** Nothing has stopped the first `n` turns. */
  ghost predicate Quiet(turns: seq<Turn>, n: nat, stream: int)
    requires n <= |turns|
  {
    (forall j: nat :: j < n ==> !turns[j].interrupted) && NoDrainBefore(turns, n, stream)
  }

  lemma QuietStep(turns: seq<Turn>, n: nat, stream: int)
    requires n < |turns| && Quiet(turns, n, stream) && !turns[n].interrupted && !DrainsAt(turns, n, stream)
    ensures Quiet(turns, n + 1, stream)
  {
  }

  lemma LeftInterrupted(turns: seq<Turn>, n: nat, stream: int)
    requires n < |turns| && Quiet(turns, n, stream) && turns[n].interrupted
    ensures Left(turns, Interrupted, n, stream)
  {
  }

  lemma LeftDrained(turns: seq<Turn>, n: nat, stream: int)
    requires n < |turns| && Quiet(turns, n, stream) && !turns[n].interrupted && DrainsAt(turns, n, stream)
    ensures Left(turns, Drained, n + 1, stream)
  {
  }

  lemma LeftPlaying(turns: seq<Turn>, stream: int)
    requires Quiet(turns, |turns|, stream)
    ensures Left(turns, StillPlaying, |turns|, stream)
  {
  }

  lemma {:induction false} FrameForEachPacket(turns: seq<Turn>, n: nat, stream: int)
    requires n <= |turns|
    requires forall i :: 0 <= i < n && turns[i].read == Packet(stream) && turns[i].takes ==> |turns[i].frames| > 0
    ensures Delivered(turns, n, stream) == Accepted(turns, n, stream)
  {
    if n > 0 { FrameForEachPacket(turns, n - 1, stream); }
  }

  /** A run that is never interrupted, whose container runs out at turn `e` with every frame offered by then,
      stops there, drained, with a frame sent for every packet accepted. */
  lemma EveryFrameIsSent(turns: seq<Turn>, e: nat, exit: Exit, used: nat, stream: int)
    requires used <= |turns| && Left(turns, exit, used, stream)
    requires e < |turns| && turns[e].read.EndOfInput? && !Ended(turns, e)
    requires forall i: nat :: i <= e ==> !turns[i].interrupted
    requires Delivered(turns, e, stream) == Accepted(turns, e, stream)
    ensures exit == Drained && used == e + 1
    ensures Delivered(turns, used, stream) == Accepted(turns, used, stream) == Accepted(turns, e, stream)
  {
    assert DrainsAt(turns, e, stream);
    NoEndNoDrain(turns, e, stream);
  }

  lemma NoEndNoDrain(turns: seq<Turn>, e: nat, stream: int)
    requires e < |turns| && !Ended(turns, e)
    ensures NoDrainBefore(turns, e, stream)
  {
    forall j: nat | j < e ensures !DrainsAt(turns, j, stream) {
      EndedMeans(turns, j + 1);
      EndedMeans(turns, e);
    }
  }

  /** The `k`-th frame sent: due `k + 1` frame times after the start, whatever decoding and sleeping cost,
      and slept for exactly what was left of that. */
  ghost predicate Paced(s: Sent, start: Time, frameWait: int, k: int) {
    && s.deadline.Total() == start.Total() + Beats(k + 1, frameWait)
    && 0 <= s.deadline.nsec <= NANOS && (frameWait > 0 ==> s.deadline.nsec > 0)
    && s.now.Normal()
    && s.sleep == if s.deadline.Total() <= s.now.Total() then None else Some(SleepTime(s.deadline, s.now))
  }

  /** Lateness is never carried over: a frame sent before its deadline ends its sleep on the beat. */
  lemma NoDrift(s: Sent, start: Time, frameWait: int, k: int)
    requires Paced(s, start, frameWait, k) && s.sleep.Some?
    ensures s.now.Total() + s.sleep.value.Total() == start.Total() + (k + 1) * frameWait
    ensures s.sleep.value.sec >= 0 && 0 <= s.sleep.value.nsec <= NANOS
  {
    SleepIsTheTimeLeft(s.deadline, s.now);
  }

  /** The one sleep the system call refuses: a deadline on a whole second met by a clock on a whole one. */
  lemma SleepIsRefusedIff(s: Sent, start: Time, frameWait: int, k: int)
    requires Paced(s, start, frameWait, k) && s.sleep.Some? && frameWait > 0
    ensures !s.sleep.value.Normal() <==> (start.Total() + (k + 1) * frameWait) % NANOS == 0 && s.now.nsec == 0
  {
    SleepIsTheTimeLeft(s.deadline, s.now);
    var total := s.deadline.Total();
    assert s.deadline.nsec == NANOS <==> total % NANOS == 0;
  }

  /** Such a sleep: one-second frames from the epoch, the second of them sent as the clock reads a whole
      second. What is asked for is a billion nanoseconds. */
  lemma ASleepIsRefused()
    ensures var s := Sent(Time(1, NANOS), Time(1, 0), Some(Time(0, NANOS)));
      Paced(s, Time(0, 0), NANOS, 1) && !s.sleep.value.Normal()
  {
    var s := Sent(Time(1, NANOS), Time(1, 0), Some(Time(0, NANOS)));
    assert Paced(s, Time(0, 0), NANOS, 1);
    SleepIsRefusedIff(s, Time(0, 0), NANOS, 1);
  }
}
