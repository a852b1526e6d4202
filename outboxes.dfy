/**
 * The client registry's delivery side: one FIFO outbox per registered
 * username, and the fan-out that pushes a message onto every one of them.
 */
module Outboxes {

  /** Every outbox with `m` appended once at its end; the set of usernames is unchanged. */
  function Deliver<T>(boxes: map<string, seq<T>>, m: T): (r: map<string, seq<T>>)
    ensures r.Keys == boxes.Keys
    ensures forall u :: u in r ==> r[u] == boxes[u] + [m]
  {
    map u | u in boxes :: boxes[u] + [m]
  }

  /** Fan-out of several messages, one after another. */
  function DeliverAll<T>(boxes: map<string, seq<T>>, ms: seq<T>): (r: map<string, seq<T>>)
    ensures r.Keys == boxes.Keys
  {
    if ms == [] then boxes else Deliver(DeliverAll(boxes, ms[..|ms| - 1]), ms[|ms| - 1])
  }

  /** Per-subscriber FIFO: a client registered throughout receives the messages in publish order, each once. */
  lemma {:induction false} DeliverAllInOrder<T>(boxes: map<string, seq<T>>, ms: seq<T>, u: string)
    requires u in boxes
    ensures u in DeliverAll(boxes, ms) && DeliverAll(boxes, ms)[u] == boxes[u] + ms
  {
    if ms != [] {
      DeliverAllInOrder(boxes, ms[..|ms| - 1], u);
      assert ms[..|ms| - 1] + [ms[|ms| - 1]] == ms;
    }
  }

  /**
   * The `for username := range clients` loop: visits the usernames in an
   * unspecified order and appends `m` to each outbox once.
   */
  method FanOut<T>(boxes: map<string, seq<T>>, m: T) returns (r: map<string, seq<T>>)
    ensures r == Deliver(boxes, m)
  {
    r := boxes;
    var pending := boxes.Keys;
    while pending != {}
      invariant pending <= boxes.Keys
      invariant r.Keys == boxes.Keys
      invariant forall u :: u in r ==> r[u] == if u in pending then boxes[u] else boxes[u] + [m]
      decreases |pending|
    {
      var u :| u in pending;
      r := r[u := r[u] + [m]];
      pending := pending - {u};
    }
  }

  /** Appends `ms` to one outbox one message at a time (a `for range` loop of channel sends). */
  method SendEach<T>(box: seq<T>, ms: seq<T>) returns (r: seq<T>)
    ensures r == box + ms
  {
    r := box;
    var i := 0;
    while i < |ms|
      invariant 0 <= i <= |ms|
      invariant r == box + ms[..i]
    {
      r := r + [ms[i]];
      i := i + 1;
    }
    assert ms[..i] == ms;
  }
}
