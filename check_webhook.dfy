/** The debug endpoint `POST /api/check-webhook`: every delivery is put at
    the front of a process-wide log that keeps the ten most recent ones. */
module CheckWebhook {
  import opened Wrappers
  import opened Clock

  const Capacity := 10

  /** One logged delivery. */
  datatype Entry = Entry(timestamp: Instant, headers: map<string, string>, body: string)

  /** The log after `unshift(e)` and, past the capacity, one `pop()`. */
  function Logged(log: seq<Entry>, e: Entry): (r: seq<Entry>)
    ensures |r| == if |log| < Capacity then |log| + 1 else |log|
    ensures |r| >= 1 && r[0] == e
    ensures forall i :: 1 <= i < |r| ==> r[i] == log[i - 1]
  {
    var grown := [e] + log;
    if |grown| > Capacity then grown[..|grown| - 1] else grown
  }

  /** The log after the deliveries `es`, in order, into an empty log. */
  function Replay(es: seq<Entry>): seq<Entry> {
    if es == [] then [] else Logged(Replay(es[..|es| - 1]), es[|es| - 1])
  }

  /** The log never holds more than ten entries once it starts within bounds,
      and grows by one per delivery until it is full. */
  lemma LoggedBounded(log: seq<Entry>, e: Entry)
    requires |log| <= Capacity
    ensures |Logged(log, e)| <= Capacity
    ensures |Logged(log, e)| == if |log| < Capacity then |log| + 1 else Capacity
  {
  }

  /** After any sequence of deliveries the log holds the most recent ones,
      newest first, at most ten of them. */
  lemma {:induction false} ReplayNewestFirst(es: seq<Entry>)
    ensures |Replay(es)| == if |es| < Capacity then |es| else Capacity
    ensures forall i :: 0 <= i < |Replay(es)| ==> Replay(es)[i] == es[|es| - 1 - i]
  {
    if es != [] {
      var init := es[..|es| - 1];
      ReplayNewestFirst(init);
      var r := Replay(es);
      forall i | 1 <= i < |r| ensures r[i] == es[|es| - 1 - i] {
        assert r[i] == Replay(init)[i - 1];
        assert init[|init| - 1 - (i - 1)] == es[|es| - 1 - i];
      }
    }
  }

  /** The module-level `webhookLog` array. */
  class WebhookLog {
    var entries: seq<Entry>

    ghost predicate Valid()
      reads this
    {
      |entries| <= Capacity
    }

    constructor ()
      ensures Valid() && entries == []
    {
      entries := [];
    }

    /** `POST`: log the delivery and return the log; a body that cannot be
        read is answered with 500 and logs nothing. */
    method Post(body: Option<string>, headers: map<string, string>, now: Instant)
        returns (code: int, recent: seq<Entry>)
      requires Valid()
      modifies this
      ensures Valid()
      ensures body.None? ==> code == 500 && entries == old(entries) && recent == []
      ensures body.Some? ==>
        code == 200 && recent == entries &&
        entries == Logged(old(entries), Entry(now, headers, body.value))
    {
      if body.None? {
        return 500, [];
      }
      entries := [Entry(now, headers, body.value)] + entries;
      if |entries| > Capacity {
        entries := entries[..|entries| - 1];
      }
      code, recent := 200, entries;
    }
  }
}
