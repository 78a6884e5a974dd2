/**
 The two halves of "at most once" together: the retry loop counts deliveries,
 and a native delivery is a sequence of scripts that call the page's runner.
 */
module DispatchNative {
  import opened Dispatch
  import opened DispatchProofs
  import opened NativeDelivery

  /** How a delivery reached the page: as one message, or as scripts of which the
      webview evaluated the first `evaluated`. */
  datatype Carrier =
    | Message
    | Scripts(document: Document, candidates: seq<Candidate>, id: Id, reply: Reply, evaluated: nat)

  /** The runner calls that this delivery made. */
  function NewCalls(c: Carrier): seq<Call>
    requires c.Scripts? && c.evaluated <= |NativeScripts(c.candidates, c.id, c.reply)|
  {
    var scripts := NativeScripts(c.candidates, c.id, c.reply)[..c.evaluated];
    var after := EvaluateAll(c.document, scripts).calls;
    if |c.document.calls| <= |after| then after[|c.document.calls|..] else []
  }

  /** What the page did is what its runner did: nothing if it was not called, the
      syntax error if it was called with that, else the gate's refusal or the body. */
  predicate Carries(c: Carrier, d: Delivery) {
    c.Scripts? ==>
      && c.id !in c.document.parsed
      && c.evaluated <= |NativeScripts(c.candidates, c.id, c.reply)|
      && var calls := NewCalls(c);
         if calls == [] then d.run.Silent?
         else if calls[0].ReportSyntax? then d.run.Unparsed?
         else !d.run.Unparsed?
  }

  function BodyCalls(calls: seq<Call>): nat {
    if calls == [] then 0 else (if calls[0].RunBody? then 1 else 0) + BodyCalls(calls[1..])
  }

  /** How often the body is started: by every call of the runner with a form of
      it, if the gate lets the body through. */
  function BodyStarts(c: Carrier, d: Delivery): nat
    requires Carries(c, d)
  {
    if !d.run.Ran? then 0
    else if c.Message? then 1
    else BodyCalls(NewCalls(c))
  }

  ghost predicate AllCarried(cs: seq<Carrier>, log: seq<Delivery>) {
    |cs| == |log| && forall i :: 0 <= i < |cs| ==> Carries(cs[i], log[i])
  }

  ghost function TotalStarts(cs: seq<Carrier>, log: seq<Delivery>): nat
    requires AllCarried(cs, log)
  {
    var last := |cs| - 1;
    if cs == [] then 0
    else
      assert AllCarried(cs[..last], log[..last]);
      TotalStarts(cs[..last], log[..last]) + BodyStarts(cs[last], log[last])
  }

  lemma CarrierStartsOnce(c: Carrier, d: Delivery)
    requires Carries(c, d)
    ensures BodyStarts(c, d) == if Started(d) then 1 else 0
  {
    if c.Scripts? {
      PartialDeliveryRunsAtMostOnce(c.document, c.candidates, c.id, c.reply, c.evaluated);
      var calls := NewCalls(c);
      assert OneCall(calls, c.id);
      if |calls| == 1 { assert calls[1..] == [] && BodyCalls(calls) == if calls[0].RunBody? then 1 else 0; }
    }
  }

  lemma {:induction false} TotalIsStarts(cs: seq<Carrier>, log: seq<Delivery>)
    requires AllCarried(cs, log)
    ensures TotalStarts(cs, log) == Starts(log)
    decreases |cs|
  {
    if cs != [] {
      hide Carries, BodyStarts;
      var last := |cs| - 1;
      assert AllCarried(cs[..last], log[..last]);
      TotalIsStarts(cs[..last], log[..last]);
      CarrierStartsOnce(cs[last], log[last]);
    }
  }

  /** Over all scripts of all deliveries of a command, however each was cut
      short, the runner starts the caller's body at most once. */
  lemma RunnerStartsTheBodyAtMostOnce(w: World, cs: seq<Carrier>)
    requires HonestBody(w) && AllCarried(cs, Execute(w).sent)
    ensures TotalStarts(cs, Execute(w).sent) <= 1
  {
    StartsAtMostOnce(w);
    TotalIsStarts(cs, Execute(w).sent);
  }
}
