/**
 * The remote messaging platform as the bots see it. Each call of the SDK's
 * `send_message` / `send_photo` takes the next outcome from a scripted
 * sequence; once the script is used up every further call succeeds.
 * `asyncio.sleep` is recorded instead of waited for. Every attempt and every
 * wait lands in the log, in order.
 */
module Channel {
  import opened Text

  /** What the platform answers to one request: success, or an exception with its text. */
  datatype Outcome = Ok | Err(message: string)

  /** The payload of one request; a photo is named by its path. */
  datatype Request = Message(text: string) | Photo(image: string, caption: string)

  datatype Event = Attempt(request: Request, outcome: Outcome) | Wait(seconds: nat)

  datatype World = World(script: seq<Outcome>, log: seq<Event>)

  /** How a send (or a chain of sends) ends for its caller: normally, or with an exception escaping. */
  datatype Status = Done | Raised(message: string)

  /** The marker that `"Retry in" in str(e)` looks for in flood-control errors. */
  const FloodMarker: string := "Retry in"

  predicate IsFlood(o: Outcome) {
    o.Err? && Contains(o.message, FloodMarker)
  }

  function NextOutcome(script: seq<Outcome>): Outcome {
    if script == [] then Ok else script[0]
  }

  function Advance(script: seq<Outcome>): seq<Outcome> {
    if script == [] then [] else script[1..]
  }

  /** One SDK call: the next scripted outcome is consumed and logged with its request. */
  function Send(w: World, req: Request): (r: (World, Outcome))
    ensures r.1 == NextOutcome(w.script)
    ensures r.0.log == w.log + [Attempt(req, r.1)]
    ensures r.0.script == Advance(w.script)
    ensures r.1.Err? ==> |r.0.script| == |w.script| - 1
  {
    var o := NextOutcome(w.script);
    (World(Advance(w.script), w.log + [Attempt(req, o)]), o)
  }

  /** `await asyncio.sleep(seconds)`. */
  function Sleep(w: World, seconds: nat): World {
    World(w.script, w.log + [Wait(seconds)])
  }

  /** The requests of a log segment, in the order they were attempted. */
  function Attempts(log: seq<Event>): seq<Request> {
    if log == [] then []
    else (if log[0].Attempt? then [log[0].request] else []) + Attempts(log[1..])
  }

  /** The requests of a log segment that the platform accepted, in order. */
  function Delivered(log: seq<Event>): seq<Request> {
    if log == [] then []
    else (if log[0].Attempt? && log[0].outcome.Ok? then [log[0].request] else []) + Delivered(log[1..])
  }

  lemma {:induction false} AttemptsAppend(a: seq<Event>, b: seq<Event>)
    ensures Attempts(a + b) == Attempts(a) + Attempts(b)
    decreases |a|
  {
    if a == [] {
      assert a + b == b;
    } else {
      var head := if a[0].Attempt? then [a[0].request] else [];
      assert (a + b)[0] == a[0] && (a + b)[1..] == a[1..] + b;
      AttemptsAppend(a[1..], b);
      calc {
        Attempts(a + b);
        head + Attempts(a[1..] + b);
        head + (Attempts(a[1..]) + Attempts(b));
        { ConcatAssoc(head, Attempts(a[1..]), Attempts(b)); }
        Attempts(a) + Attempts(b);
      }
    }
  }

  lemma {:induction false} DeliveredAppend(a: seq<Event>, b: seq<Event>)
    ensures Delivered(a + b) == Delivered(a) + Delivered(b)
    decreases |a|
  {
    if a == [] {
      assert a + b == b;
    } else {
      var head := if a[0].Attempt? && a[0].outcome.Ok? then [a[0].request] else [];
      assert (a + b)[0] == a[0] && (a + b)[1..] == a[1..] + b;
      DeliveredAppend(a[1..], b);
      calc {
        Delivered(a + b);
        head + Delivered(a[1..] + b);
        head + (Delivered(a[1..]) + Delivered(b));
        { ConcatAssoc(head, Delivered(a[1..]), Delivered(b)); }
        Delivered(a) + Delivered(b);
      }
    }
  }

  /** One more copy of a repeated request in front. */
  lemma RepeatCons(req: Request, n: nat)
    ensures [req] + seq(n, k => req) == seq(n + 1, k => req)
  {
  }

  lemma RepeatSnoc(req: Request, n: nat)
    ensures seq(n, k => req) + [req] == seq(n + 1, k => req)
  {
  }

  /** A single attempt: one request, delivered exactly when it succeeded. */
  lemma SingleAttempt(req: Request, o: Outcome)
    ensures Attempts([Attempt(req, o)]) == [req]
    ensures Delivered([Attempt(req, o)]) == if o.Ok? then [req] else []
  {
    assert [Attempt(req, o)][1..] == [];
  }

  /** A failed attempt followed by a pause: one attempt, nothing delivered. */
  lemma FailedAttemptThenWait(req: Request, o: Outcome, seconds: nat)
    requires o.Err?
    ensures Attempts([Attempt(req, o), Wait(seconds)]) == [req]
    ensures Delivered([Attempt(req, o), Wait(seconds)]) == []
  {
    var pair := [Attempt(req, o), Wait(seconds)];
    assert pair[1..] == [Wait(seconds)] && pair[1..][1..] == [];
    assert Attempts(pair[1..]) == [] + Attempts(pair[1..][1..]) == [];
    assert Delivered(pair[1..]) == [] + Delivered(pair[1..][1..]) == [];
    assert Attempts(pair) == [req] + Attempts(pair[1..]);
    assert Delivered(pair) == [] + Delivered(pair[1..]);
  }

  /** The log of `w'` carries on the log of `w`. */
  predicate LogExtends(w: World, w': World) {
    |w.log| <= |w'.log| && w'.log[..|w.log|] == w.log
  }

  /** The events logged between `w` and a later world `w'`. */
  function NewEvents(w: World, w': World): seq<Event>
    requires LogExtends(w, w')
  {
    w'.log[|w.log|..]
  }

  lemma NewEventsChain(a: World, b: World, c: World)
    requires LogExtends(a, b) && LogExtends(b, c)
    ensures LogExtends(a, c)
    ensures NewEvents(a, c) == NewEvents(a, b) + NewEvents(b, c)
  {
    assert c.log[..|b.log|][..|a.log|] == c.log[..|a.log|];
    assert c.log == b.log + NewEvents(b, c);
    assert b.log == a.log + NewEvents(a, b);
  }

  /** A pause adds nothing to what was delivered. */
  lemma DeliveredWait(events: seq<Event>, seconds: nat)
    ensures Delivered(events + [Wait(seconds)]) == Delivered(events)
  {
    DeliveredAppend(events, [Wait(seconds)]);
    assert [Wait(seconds)][1..] == [];
  }

  /** A script that succeeds throughout (also true of an exhausted one). */
  predicate AllOk(script: seq<Outcome>) {
    forall i :: 0 <= i < |script| ==> script[i] == Ok
  }

  /** The chunks as text messages, in order. */
  function Messages(chunks: seq<string>): (r: seq<Request>)
    ensures |r| == |chunks|
    ensures forall i :: 0 <= i < |r| ==> r[i] == Message(chunks[i])
  {
    seq(|chunks|, i requires 0 <= i < |chunks| => Message(chunks[i]))
  }

  lemma MessagesCons(chunks: seq<string>, m: nat)
    requires m < |chunks|
    ensures [Message(chunks[0])] + Messages(chunks[1..][..m]) == Messages(chunks[..m + 1])
    ensures [Message(chunks[0])] + Messages(chunks[1..]) == Messages(chunks)
  {
    assert chunks[1..][..m] == chunks[1..m + 1];
  }

  /**
   * The file system as `os.path.exists`, `os.access(path, os.R_OK)` and
   * `open(path, 'rb')` see it: a readable directory, say, exists and is
   * readable but cannot be opened.
   */
  datatype Files = Files(existing: set<string>, readable: set<string>, openable: set<string>)

  predicate Exists(files: Files, path: string) {
    path in files.existing
  }

  predicate Readable(files: Files, path: string) {
    path in files.readable
  }

  predicate Openable(files: Files, path: string) {
    path in files.openable
  }
}
