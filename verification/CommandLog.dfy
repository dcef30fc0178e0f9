/** The bounded command log of a room, against the unbounded history of all
    inputs the room ever accepted. */
module CommandLog {

  const LOG_LIMIT := 2048

  datatype Command = Command(number: nat, frame: nat, player: string, cmd: string, payload: string, ts: int)

  type History = seq<Command>

  /** The last LOG_LIMIT entries, or all if there are no more. */
  function Tail(h: History): History {
    if |h| > LOG_LIMIT then h[|h| - LOG_LIMIT..] else h
  }

  ghost predicate Numbered(h: History) {
    forall i :: 0 <= i < |h| ==> h[i].number == i + 1
  }

  ghost predicate FramesOrdered(h: History) {
    forall i, j :: 0 <= i <= j < |h| ==> h[i].frame <= h[j].frame
  }

  /** Appending and truncating the log keeps it the tail of the history. */
  lemma AppendKeepsTail(h: History, c: Command)
    ensures Tail(Tail(h) + [c]) == Tail(h + [c])
  {
    if |h| >= LOG_LIMIT {
      assert Tail(h) == h[|h| - LOG_LIMIT..];
      assert (Tail(h) + [c])[1..] == (h + [c])[|h| + 1 - LOG_LIMIT..];
    }
  }

  /** What a reader who has seen everything up to `last` is sent. */
  function After(log: seq<Command>, last: nat): seq<Command> {
    if log == [] then []
    else After(log[..|log| - 1], last) + (if log[|log| - 1].number > last then [log[|log| - 1]] else [])
  }

  /** The filtering loop of a pull. */
  method Select(log: seq<Command>, last: nat) returns (events: seq<Command>)
    ensures events == After(log, last)
  {
    events := [];
    for i := 0 to |log|
      invariant events == After(log[..i], last)
    {
      assert log[..i + 1][..i] == log[..i];
      if log[i].number > last {
        events := events + [log[i]];
      }
    }
    assert log[..|log|] == log;
  }

  lemma {:induction false} AfterIsSuffix(log: seq<Command>, first: nat, last: nat)
    requires forall i :: 0 <= i < |log| ==> log[i].number == first + i + 1
    ensures After(log, last) == if last <= first then log else if last - first >= |log| then [] else log[last - first..]
  {
    if log != [] {
      AfterIsSuffix(log[..|log| - 1], first, last);
    }
  }

  lemma PullKeepingUp(h: History, last: nat)
    requires Numbered(h) && last <= |h| <= last + LOG_LIMIT
    ensures After(Tail(h), last) == h[last..]
  {
    var first := if |h| > LOG_LIMIT then |h| - LOG_LIMIT else 0;
    AfterIsSuffix(h[first..], first, last);
    assert first <= last;
    assert h[first..][last - first..] == h[last..];
  }

  lemma PullLagging(h: History, last: nat)
    requires Numbered(h) && last + LOG_LIMIT < |h|
    ensures After(Tail(h), last) == h[|h| - LOG_LIMIT..]
  {
    AfterIsSuffix(Tail(h), |h| - LOG_LIMIT, last);
  }

  /** A reader ahead of the room is sent nothing. */
  lemma PullBeyond(h: History, last: nat)
    requires Numbered(h) && last >= |h|
    ensures After(Tail(h), last) == []
  {
    var first := if |h| > LOG_LIMIT then |h| - LOG_LIMIT else 0;
    assert Tail(h) == h[first..];
    AfterIsSuffix(h[first..], first, last);
  }

  /** One pull, exactly: everything after `last` that the log still holds. A
      reader no more than 2048 inputs behind misses nothing, and a reader
      farther behind misses precisely the inputs before the last 2048. */
  lemma PullIsExact(h: History, last: nat)
    requires Numbered(h) && last <= |h|
    ensures After(Tail(h), last) == h[if |h| - last <= 2048 then last else |h| - 2048..]
    ensures h[..last] + After(Tail(h), last) == h <==> |h| - last <= 2048
  {
    if |h| - last <= LOG_LIMIT {
      PullKeepingUp(h, last);
      assert h[..last] + h[last..] == h;
    } else {
      PullLagging(h, last);
      assert |h[..last] + After(Tail(h), last)| == last + LOG_LIMIT;
    }
  }

  /** The sequence number a reader passes to its next pull. */
  function Cursor(received: seq<Command>): nat {
    if received == [] then 0 else received[|received| - 1].number
  }

  /** What a reader has collected after pulling when the history had the given
      lengths, one pull after the other, always from its own last number. */
  function Received(h: History, points: seq<nat>): seq<Command>
    requires forall i :: 0 <= i < |points| ==> points[i] <= |h|
  {
    if points == [] then []
    else
      var n := |points| - 1;
      var sofar := Received(h, points[..n]);
      sofar + After(Tail(h[..points[n]]), Cursor(sofar))
  }

  function Previous(points: seq<nat>, i: nat): nat
    requires i <= |points|
  {
    if i == 0 then 0 else points[i - 1]
  }

  ghost predicate KeepsUp(points: seq<nat>) {
    forall i :: 0 <= i < |points| ==> Previous(points, i) <= points[i] <= Previous(points, i) + LOG_LIMIT
  }

  /** A reader who never falls more than 2048 behind receives the full history
      exactly once and in order, however pulls and inputs interleave. */
  lemma {:induction false} FollowerReceivesAll(h: History, points: seq<nat>)
    requires Numbered(h) && forall i :: 0 <= i < |points| ==> points[i] <= |h|
    requires KeepsUp(points)
    ensures Previous(points, |points|) <= |h|
    ensures Received(h, points) == h[..Previous(points, |points|)]
  {
    hide Tail, After, Numbered, Cursor;
    if points != [] {
      var n := |points| - 1;
      var last := Previous(points, n);
      forall i | 0 <= i < n ensures Previous(points[..n], i) == Previous(points, i) {}
      FollowerReceivesAll(h, points[..n]);
      assert Previous(points[..n], n) == last;
      NextPull(h, last, points[n]);
    } else {
      assert h[..0] == [];
    }
  }

  lemma NextPull(h: History, last: nat, now: nat)
    requires Numbered(h) && last <= now <= |h| && now <= last + LOG_LIMIT
    ensures h[..last] + After(Tail(h[..now]), Cursor(h[..last])) == h[..now]
  {
    PullKeepingUp(h[..now], last);
    assert Cursor(h[..last]) == last;
    assert h[..last] + h[..now][last..] == h[..now];
  }

  /** Falling behind is final: a pull from farther back leaves a hole. */
  lemma LaggardMissesSome(h: History, last: nat)
    requires Numbered(h) && last + LOG_LIMIT < |h|
    ensures h[last] !in After(Tail(h), last)
  {
    PullLagging(h, last);
  }
}
