/**
 * `_safe_send_message` / `_safe_send_photo` of telegram_bot.py and
 * telegram_bot-backup.py: send, and on a flood-control error (one whose text
 * contains "Retry in") sleep the parsed time and send the same payload again;
 * any other error escapes at its first occurrence. The two methods differ
 * only in the request, so one loop models both.
 */
module FloodControl {
  import opened Text
  import opened Channel
  import RetryTime

  /** The sleep the loop takes after a flood error. */
  function Pause(o: Outcome): nat {
    if o.Err? then RetryTime.TelegramRetryTime(o.message) else 0
  }

  /** What the retry loop does, iteration by iteration. */
  function SafeSendSpec(w: World, req: Request): (World, Status)
    decreases |w.script|
  {
    var (w1, o) := Send(w, req);
    if IsFlood(o) then SafeSendSpec(Sleep(w1, Pause(o)), req) else (w1, Final(o))
  }

  /** How an attempt that is not a flood error ends the loop: `break`, or `raise e`. */
  function Final(o: Outcome): Status {
    if o.Ok? then Done else Raised(o.message)
  }

  /** The `while True` loop of `_safe_send_*`; it ends because every error uses up one scripted outcome. */
  method SafeSend(w0: World, req: Request) returns (w: World, s: Status)
    ensures (w, s) == SafeSendSpec(w0, req)
  {
    w := w0;
    while true
      invariant SafeSendSpec(w, req) == SafeSendSpec(w0, req)
      decreases |w.script|
    {
      var (w1, o) := Send(w, req);
      if o.Ok? {
        return w1, Done;
      }
      if Contains(o.message, FloodMarker) {
        var retryAfter := RetryTime.TelegramRetryTime(o.message);
        w := Sleep(w1, retryAfter);
      } else {
        return w1, Raised(o.message);
      }
    }
  }

  /** How many flood errors the script opens with. */
  function Floods(script: seq<Outcome>): (n: nat)
    ensures n <= |script|
    ensures forall k :: 0 <= k < n ==> IsFlood(script[k])
    ensures n == |script| || !IsFlood(script[n])
  {
    if script != [] && IsFlood(script[0]) then 1 + Floods(script[1..]) else 0
  }

  /** The log of a run of flood errors: each attempt followed by its sleep. */
  function RetryTrace(req: Request, floods: seq<Outcome>): seq<Event> {
    if floods == [] then []
    else [Attempt(req, floods[0]), Wait(Pause(floods[0]))] + RetryTrace(req, floods[1..])
  }

  /**
   * The loop in closed form: it attempts the identical request once per
   * leading flood error, sleeping the parsed time after each, then once more;
   * it returns normally if that last outcome is a success and raises that
   * outcome's error otherwise, having used up exactly those outcomes.
   */
  lemma {:induction false} SafeSendShape(w: World, req: Request)
    ensures var n := Floods(w.script);
            var o := NextOutcome(w.script[n..]);
            SafeSendSpec(w, req) ==
              (World(Advance(w.script[n..]), w.log + RetryTrace(req, w.script[..n]) + [Attempt(req, o)]), Final(o))
    decreases |w.script|
  {
    var script := w.script;
    var o0 := NextOutcome(script);
    if IsFlood(o0) {
      var w2 := SafeSendRetries(w, req);
      SafeSendShape(w2, req);
      var n := Floods(script);
      var o := NextOutcome(script[n..]);
      var head := [Attempt(req, script[0]), Wait(Pause(script[0]))];
      assert w2.script[n - 1..] == script[n..];
      assert w2.log + RetryTrace(req, w2.script[..n - 1]) + [Attempt(req, o)] ==
             w.log + RetryTrace(req, script[..n]) + [Attempt(req, o)] by {
        RetryTraceCons(req, script, n);
        LogRegroup(w.log, head, RetryTrace(req, script[1..][..n - 1]), [Attempt(req, o)]);
      }
    } else {
      SafeSendStops(w, req);
    }
  }

  /** After a flood error the loop starts over on the rest of the script, with the attempt and the sleep logged. */
  lemma SafeSendRetries(w: World, req: Request) returns (w2: World)
    requires IsFlood(NextOutcome(w.script))
    ensures w2 == World(w.script[1..], w.log + [Attempt(req, w.script[0]), Wait(Pause(w.script[0]))])
    ensures Floods(w2.script) == Floods(w.script) - 1
    ensures SafeSendSpec(w, req) == SafeSendSpec(w2, req)
  {
    w2 := Sleep(Send(w, req).0, Pause(w.script[0]));
  }

  lemma LogRegroup(log: seq<Event>, head: seq<Event>, tail: seq<Event>, last: seq<Event>)
    ensures log + head + tail + last == log + (head + tail) + last
  {
  }

  lemma RetryTraceCons(req: Request, script: seq<Outcome>, n: nat)
    requires 1 <= n <= |script|
    ensures RetryTrace(req, script[..n]) ==
            [Attempt(req, script[0]), Wait(Pause(script[0]))] + RetryTrace(req, script[1..][..n - 1])
  {
    assert script[..n][1..] == script[1..][..n - 1];
  }

  lemma SafeSendStops(w: World, req: Request)
    requires !IsFlood(NextOutcome(w.script))
    ensures var o := NextOutcome(w.script);
            Floods(w.script) == 0 &&
            SafeSendSpec(w, req) == (World(Advance(w.script), w.log + RetryTrace(req, w.script[..0]) + [Attempt(req, o)]), Final(o))
  {
    var o := NextOutcome(w.script);
    assert w.script[..0] == [];
    assert RetryTrace(req, []) == [];
    assert Send(w, req) == (World(Advance(w.script), w.log + [Attempt(req, o)]), o);
    assert SafeSendSpec(w, req) == (Send(w, req).0, Final(o));
    assert w.log + [] + [Attempt(req, o)] == w.log + [Attempt(req, o)];
  }

  /** The requests that the log of a run of flood errors records as accepted: none. */
  lemma {:induction false} RetryTraceDelivers(req: Request, floods: seq<Outcome>)
    requires forall k :: 0 <= k < |floods| ==> floods[k].Err?
    ensures Delivered(RetryTrace(req, floods)) == []
    ensures Attempts(RetryTrace(req, floods)) == seq(|floods|, k => req)
    decreases |floods|
  {
    if floods != [] {
      assert forall k :: 0 <= k < |floods[1..]| ==> floods[1..][k].Err? by {
        forall k | 0 <= k < |floods[1..]| ensures floods[1..][k].Err? {
          assert floods[1..][k] == floods[k + 1];
        }
      }
      RetryTraceDelivers(req, floods[1..]);
      var head: seq<Event> := [Attempt(req, floods[0]), Wait(Pause(floods[0]))];
      var tail := RetryTrace(req, floods[1..]);
      assert RetryTrace(req, floods) == head + tail;
      FailedAttemptThenWait(req, floods[0], Pause(floods[0]));
      DeliveredAppend(head, tail);
      AttemptsAppend(head, tail);
      RepeatCons(req, |floods| - 1);
    }
  }

  /**
   * Only the identical request is ever attempted, once per leading flood
   * error and once more; the platform accepts it exactly once when the loop
   * returns normally and never when it raises.
   */
  lemma SafeSendResends(w: World, req: Request)
    ensures LogExtends(w, SafeSendSpec(w, req).0)
    ensures Attempts(NewEvents(w, SafeSendSpec(w, req).0)) == seq(Floods(w.script) + 1, k => req)
    ensures Delivered(NewEvents(w, SafeSendSpec(w, req).0)) ==
              if SafeSendSpec(w, req).1.Done? then [req] else []
  {
    SafeSendShape(w, req);
    var n := Floods(w.script);
    var o := NextOutcome(w.script[n..]);
    var trace := RetryTrace(req, w.script[..n]);
    var w' := SafeSendSpec(w, req).0;
    assert w'.log == w.log + (trace + [Attempt(req, o)]);
    assert NewEvents(w, w') == trace + [Attempt(req, o)];
    RetryTraceDelivers(req, w.script[..n]);
    SingleAttempt(req, o);
    DeliveredAppend(trace, [Attempt(req, o)]);
    AttemptsAppend(trace, [Attempt(req, o)]);
    RepeatSnoc(req, n);
  }

  /** A platform that accepts everything takes the request at the first attempt. */
  lemma SafeSendFirstTry(w: World, req: Request)
    requires AllOk(w.script)
    ensures SafeSendSpec(w, req) == (World(Advance(w.script), w.log + [Attempt(req, Ok)]), Done)
  {
  }

  /** `for chunk in chunks: await self._safe_send_message(chunk)`: stops at the first escaping error. */
  function SendAllSpec(w: World, chunks: seq<string>): (World, Status)
    decreases |chunks|
  {
    if chunks == [] then (w, Done)
    else
      var (w1, s) := SafeSendSpec(w, Message(chunks[0]));
      if s.Raised? then (w1, s) else SendAllSpec(w1, chunks[1..])
  }

  method SendAll(w0: World, chunks: seq<string>) returns (w: World, s: Status)
    ensures (w, s) == SendAllSpec(w0, chunks)
  {
    w := w0;
    var i := 0;
    while i < |chunks|
      invariant 0 <= i <= |chunks|
      invariant SendAllSpec(w, chunks[i..]) == SendAllSpec(w0, chunks)
    {
      assert chunks[i..][1..] == chunks[i + 1..];
      var w1, s1 := SafeSend(w, Message(chunks[i]));
      if s1.Raised? {
        return w1, s1;
      }
      w := w1;
      i := i + 1;
    }
    return w, Done;
  }

  /** After a first chunk that went through, the loop carries on with the others; the first is delivered once. */
  lemma SendAllStep(w: World, chunks: seq<string>) returns (w1: World)
    requires chunks != [] && SafeSendSpec(w, Message(chunks[0])).1.Done?
    ensures w1 == SafeSendSpec(w, Message(chunks[0])).0
    ensures SendAllSpec(w, chunks) == SendAllSpec(w1, chunks[1..])
    ensures LogExtends(w, w1) && Delivered(NewEvents(w, w1)) == [Message(chunks[0])]
  {
    w1 := SafeSendSpec(w, Message(chunks[0])).0;
    SafeSendResends(w, Message(chunks[0]));
  }

  /**
   * The chunks reach the platform in order: all of them when the loop ends
   * normally, a proper prefix of them when an error escapes.
   */
  lemma {:induction false} SendAllInOrder(w: World, chunks: seq<string>)
    ensures LogExtends(w, SendAllSpec(w, chunks).0)
    ensures SendAllSpec(w, chunks).1.Done? ==>
              Delivered(NewEvents(w, SendAllSpec(w, chunks).0)) == Messages(chunks)
    ensures SendAllSpec(w, chunks).1.Raised? ==>
              var got := Delivered(NewEvents(w, SendAllSpec(w, chunks).0));
              |got| < |chunks| && got == Messages(chunks[..|got|])
    decreases |chunks|
  {
    var r := SendAllSpec(w, chunks);
    if chunks == [] {
      assert NewEvents(w, r.0) == [];
    } else if SafeSendSpec(w, Message(chunks[0])).1.Raised? {
      SafeSendResends(w, Message(chunks[0]));
      assert chunks[..0] == [];
    } else {
      var w1 := SendAllStep(w, chunks);
      SendAllInOrder(w1, chunks[1..]);
      NewEventsChain(w, w1, r.0);
      var rest := NewEvents(w1, r.0);
      DeliveredAppend(NewEvents(w, w1), rest);
      var got := Delivered(NewEvents(w, r.0));
      assert got == [Message(chunks[0])] + Delivered(rest);
      if r.1.Done? {
        MessagesCons(chunks, 0);
      } else {
        MessagesCons(chunks, |Delivered(rest)|);
      }
    }
  }

  /** A platform that accepts everything receives every chunk, first try each. */
  lemma {:induction false} SendAllOk(w: World, chunks: seq<string>)
    requires AllOk(w.script)
    ensures SendAllSpec(w, chunks).1 == Done
    ensures AllOk(SendAllSpec(w, chunks).0.script)
    ensures LogExtends(w, SendAllSpec(w, chunks).0)
    ensures Delivered(NewEvents(w, SendAllSpec(w, chunks).0)) == Messages(chunks)
    decreases |chunks|
  {
    SendAllInOrder(w, chunks);
    if chunks != [] {
      SafeSendFirstTry(w, Message(chunks[0]));
      SendAllOk(SafeSendSpec(w, Message(chunks[0])).0, chunks[1..]);
    }
  }
}
