/**
 * UA.LogQueue: the retry queue for hits whose request failed. A failed
 * attempt is appended to the tail together with the frame on which the
 * attempt started and the time the hit was first sent; every frame, Update
 * takes the entries at the head that share the head's frame and sends them
 * again, each with a queue-time field ("qt") added.
 *
 * Time.frameCount and Time.realtimeSinceStartup become the parameters
 * `frame` and `now`; times are whole milliseconds. A request in flight is an
 * Attempt, and its outcome (whether the request reported an error) is handed
 * to FinishSendWebData, which stands for the code after `yield return www`.
 */
module UA {
  import opened Forms
  import opened Text

  /** One queued hit: its form, the frame its failed attempt started on, and
      the time the hit was first sent. */
  datatype Log = Log(postData: Payload, frame: int, time: int)

  /** A SendWebData coroutine waiting for its request: the form it posts,
      the frame it started on and the time it carries along. */
  datatype Attempt = Attempt(postData: Payload, frame: int, time: int)

  // ---------------------------------------------------------------------
  // Queue time

  /** C#'s (int) cast of an elapsed time in seconds, taken from milliseconds:
      the fraction is truncated toward zero. */
  function WholeSeconds(ms: int): (sec: int)
    ensures ms >= 0 ==> 0 <= sec * 1000 <= ms < sec * 1000 + 1000
    ensures ms < 0 ==> ms <= sec * 1000 <= 0 && sec * 1000 < ms + 1000
  {
    if ms >= 0 then ms / 1000 else -((-ms) / 1000)
  }

  /**
   * The qt value as LogQueue.Update computes it: the elapsed time is cast to
   * whole seconds before it is scaled to milliseconds, so the sub-second part
   * is lost.
   */
  function QueueTimeAsWritten(now: int, time: int): (qt: int)
    ensures qt % 1000 == 0
    ensures time <= now ==> qt <= now - time < qt + 1000
  {
    WholeSeconds(now - time) * 1000
  }

  /** A hit queued for one and a half seconds reports a queue time of one second. */
  lemma QueueTimeAsWrittenDropsMilliseconds()
    ensures QueueTimeAsWritten(1500, 0) == 1000
    ensures QueueTimeAsWritten(1500, 0) != 1500
  {
  }

  /** The queue time in milliseconds the Measurement Protocol expects: the
      time elapsed since the hit was first sent. */
  function QueueTime(now: int, time: int): (qt: int)
    ensures time + qt == now
  {
    now - time
  }

  /** The two agree exactly when the elapsed time is a whole number of seconds. */
  lemma QueueTimeAsWrittenAgrees(now: int, time: int)
    requires time <= now
    ensures QueueTimeAsWritten(now, time) == QueueTime(now, time) <==> (now - time) % 1000 == 0
  {
  }

  /** WWWForm.AddField("qt", n): the form gains one field at its end. */
  function WithQueueTime(data: Payload, qt: int): (r: Payload)
    ensures |r| == |data| + 1 && r[..|data|] == data
    ensures r[|data|].name == "qt" && ParseDecimal(r[|data|].value) == Some(qt)
    ensures CountNamed(r, "qt") == CountNamed(data, "qt") + 1
  {
    var r := data + [Field("qt", IntToDecimal(qt))];
    IntToDecimalRoundTrip(qt);
    assert r[..|r| - 1] == data;
    r
  }

  // ---------------------------------------------------------------------
  // Which entries one Update takes

  /** The length of the longest prefix of `logs` whose entries all have `frame`. */
  function RunLength(logs: seq<Log>, frame: int): (n: nat)
    ensures n <= |logs|
    ensures forall i :: 0 <= i < n ==> logs[i].frame == frame
    ensures n < |logs| ==> logs[n].frame != frame
  {
    if logs == [] || logs[0].frame != frame then 0 else 1 + RunLength(logs[1..], frame)
  }

  /** How many entries one Update removes: the run sharing the head's frame,
      at least one when the queue is not empty. */
  function GroupLength(logs: seq<Log>): (n: nat)
    ensures n <= |logs|
    ensures logs != [] <==> n >= 1
    ensures forall i :: 0 <= i < n ==> logs[i].frame == logs[0].frame
    ensures n < |logs| ==> logs[n].frame != logs[0].frame
  {
    if logs == [] then 0 else RunLength(logs, logs[0].frame)
  }

  /** The attempts Update starts for the removed entries, in queue order: each
      form gains a qt field, the attempt starts on the current frame and
      keeps the entry's original time. */
  function Resend(removed: seq<Log>, frame: int, now: int): (r: seq<Attempt>)
    ensures |r| == |removed|
    ensures forall i :: 0 <= i < |r| ==>
      && r[i].frame == frame && r[i].time == removed[i].time
      && r[i].postData == WithQueueTime(removed[i].postData, QueueTime(now, removed[i].time))
  {
    if removed == [] then []
    else
      var l := removed[|removed| - 1];
      Resend(removed[..|removed| - 1], frame, now)
      + [Attempt(WithQueueTime(l.postData, QueueTime(now, l.time)), frame, l.time)]
  }

  /** The groups successive Updates take from `logs` when no attempt fails
      in between. */
  ghost function Groups(logs: seq<Log>): (g: seq<seq<Log>>)
    ensures forall i :: 0 <= i < |g| ==> g[i] != []
    decreases |logs|
  {
    if logs == [] then []
    else
      var n := GroupLength(logs);
      [logs[..n]] + Groups(logs[n..])
  }

  ghost function Flatten(g: seq<seq<Log>>): seq<Log> {
    if g == [] then [] else g[0] + Flatten(g[1..])
  }

  /** Updates send every queued entry exactly once, in queue order. */
  lemma {:induction false} GroupsDrainInOrder(logs: seq<Log>)
    ensures Flatten(Groups(logs)) == logs
    ensures |Groups(logs)| <= |logs|
    decreases |logs|
  {
    if logs != [] {
      var n := GroupLength(logs);
      GroupsDrainInOrder(logs[n..]);
      assert logs[..n] + logs[n..] == logs;
      assert Groups(logs)[1..] == Groups(logs[n..]);
    }
  }

  /** Each group shares one frame, and consecutive groups differ in frame. */
  lemma {:induction false} GroupsSplitByFrame(logs: seq<Log>)
    ensures forall i, j :: 0 <= i < |Groups(logs)| && 0 <= j < |Groups(logs)[i]| ==>
      Groups(logs)[i][j].frame == Groups(logs)[i][0].frame
    ensures forall i :: 0 <= i < |Groups(logs)| - 1 ==> Groups(logs)[i][0].frame != Groups(logs)[i + 1][0].frame
    decreases |logs|
  {
    if logs != [] {
      var n := GroupLength(logs);
      var rest := logs[n..];
      GroupsSplitByFrame(rest);
      var g := Groups(logs);
      assert g[0] == logs[..n];
      assert g[1..] == Groups(rest);
      forall i, j | 0 <= i < |g| && 0 <= j < |g[i]|
        ensures g[i][j].frame == g[i][0].frame
      {
        if i > 0 {
          assert g[i] == Groups(rest)[i - 1];
        }
      }
      forall i | 0 <= i < |g| - 1
        ensures g[i][0].frame != g[i + 1][0].frame
      {
        if i > 0 {
          assert g[i] == Groups(rest)[i - 1] && g[i + 1] == Groups(rest)[i];
        } else {
          assert g[1] == Groups(rest)[0];
          assert Groups(rest)[0][0] == rest[0];
        }
      }
    }
  }

  // ---------------------------------------------------------------------
  // The component

  class LogQueue {
    var logs: seq<Log>

    constructor ()
      ensures logs == []
    {
      logs := [];
    }

    /** Appends one entry at the tail; the entries before it are untouched. */
    method Queue(data: Payload, frame: int, time: int)
      modifies this
      ensures logs == old(logs) + [Log(data, frame, time)]
    {
      logs := logs + [Log(data, frame, time)];
    }

    /** Starts sending a fresh hit: the attempt carries the current time. */
    method SendData(data: Payload, frame: int, now: int) returns (attempt: Attempt)
      ensures attempt.postData == data && attempt.frame == frame && attempt.time == now
    {
      attempt := Attempt(data, frame, now);
    }

    /** The end of SendWebData: a failed request is queued once, with the
        frame its attempt started on and its original time; a successful one
        leaves the queue alone. */
    method FinishSendWebData(attempt: Attempt, failed: bool)
      modifies this
      ensures failed ==> logs == old(logs) + [Log(attempt.postData, attempt.frame, attempt.time)]
      ensures !failed ==> logs == old(logs)
    {
      if failed {
        Queue(attempt.postData, attempt.frame, attempt.time);
      }
    }

    /** One frame's work: removes the run of entries at the head that share
        the head's frame and starts an attempt for each, in order. */
    method Update(frame: int, now: int) returns (started: seq<Attempt>)
      modifies this
      ensures logs == old(logs)[GroupLength(old(logs))..]
      ensures started == Resend(old(logs)[..GroupLength(old(logs))], frame, now)
      ensures old(logs) != [] ==> |logs| < |old(logs)|
      ensures logs != [] ==> logs[0].frame != old(logs)[0].frame
    {
      started := [];
      if |logs| > 0 {
        ghost var queued := logs;
        var frameToPush := logs[0].frame;
        var curFrame := frameToPush;
        ghost var removed := 0;
        while curFrame == frameToPush && |logs| > 0
          invariant removed <= |queued| && logs == queued[removed..]
          invariant forall i :: 0 <= i < removed ==> queued[i].frame == frameToPush
          invariant queued[0].frame == frameToPush
          invariant logs != [] ==> curFrame == logs[0].frame
          invariant logs == [] ==> removed > 0
          invariant started == Resend(queued[..removed], frame, now)
          decreases |logs|
        {
          var log := logs[0];
          var data := WithQueueTime(log.postData, QueueTime(now, log.time));
          started := started + [Attempt(data, frame, log.time)];
          assert queued[..removed + 1][..removed] == queued[..removed];
          logs := logs[1..];
          removed := removed + 1;
          if |logs| > 0 {
            curFrame := logs[0].frame;
          }
        }
        GroupLengthIsRun(queued, removed);
      }
    }
  }

  /** A run of entries sharing the head's frame, followed by the end of the
      queue or an entry with another frame, is exactly the group. */
  lemma {:induction false} GroupLengthIsRun(logs: seq<Log>, n: nat)
    requires logs != [] && 1 <= n <= |logs|
    requires forall i :: 0 <= i < n ==> logs[i].frame == logs[0].frame
    requires n < |logs| ==> logs[n].frame != logs[0].frame
    ensures GroupLength(logs) == n
  {
  }

  // ---------------------------------------------------------------------
  // Scenarios

  /** A hit whose first request fails is queued; the next Update sends it
      again with its queue time, and a second failure queues it with the new
      frame, its original time and both qt fields. */
  method FailTwice(data: Payload, t0: int, f0: int, f1: int, t1: int)
    requires CountNamed(data, "qt") == 0
  {
    var q := new LogQueue();
    var a := q.SendData(data, f0, t0);
    q.FinishSendWebData(a, true);
    assert q.logs == [Log(data, f0, t0)];
    var started := q.Update(f1, t1);
    assert q.logs == [];
    assert |started| == 1;
    var retry := started[0];
    assert retry.frame == f1 && retry.time == t0;
    assert CountNamed(retry.postData, "qt") == 1;
    q.FinishSendWebData(retry, true);
    assert q.logs == [Log(retry.postData, f1, t0)];
    var again := q.Update(f1 + 1, t1 + 500);
    assert CountNamed(again[0].postData, "qt") == 2;
  }

  /** Two failures from the same frame go out together, in the order they
      were queued; a later failure from another frame waits for the next Update. */
  method SameFrameDrainsTogether(d1: Payload, d2: Payload, d3: Payload, now: int)
  {
    var q := new LogQueue();
    q.Queue(d1, 7, 0);
    q.Queue(d2, 7, 1);
    q.Queue(d3, 8, 2);
    ghost var queued := [Log(d1, 7, 0), Log(d2, 7, 1), Log(d3, 8, 2)];
    assert q.logs == queued;
    GroupLengthIsRun(queued, 2);
    var first := q.Update(9, now);
    assert queued[..2] == [Log(d1, 7, 0), Log(d2, 7, 1)];
    assert queued[2..] == [Log(d3, 8, 2)];
    assert |first| == 2;
    assert first[0].postData[..|d1|] == d1 && first[1].postData[..|d2|] == d2;
    assert q.logs == [Log(d3, 8, 2)];
    var second := q.Update(10, now);
    assert |second| == 1 && q.logs == [];
  }
}
