/**
 Native delivery: one evaluated script per candidate form and a last one that
 reports a syntax error. The page keeps a set of request ids whose form has
 already parsed, so exactly one of these scripts calls the runner.
 */
module NativeDelivery {
  type Id = string

  /** A form of the caller's script. `parses` is the page's own compiler. */
  datatype Candidate = Candidate(needsEval: bool, parses: bool)

  datatype Script = Form(id: Id, index: nat, candidate: Candidate) | Last(id: Id)

  /** `Bridge` needs the page bridge's runner and never carries compiling forms;
      `Event` brings its own runner. */
  datatype Reply = Bridge | Event

  datatype Call = RunBody(id: Id, index: nat) | ReportSyntax(id: Id)

  predicate Kept(c: Candidate, reply: Reply) {
    !(reply.Bridge? && c.needsEval)
  }

  function Forms(candidates: seq<Candidate>, id: Id, reply: Reply, from: nat): seq<Script>
    requires from <= |candidates|
    decreases |candidates| - from
  {
    if from == |candidates| then []
    else (if Kept(candidates[from], reply) then [Form(id, from, candidates[from])] else [])
         + Forms(candidates, id, reply, from + 1)
  }

  /** `native_scripts`. */
  function NativeScripts(candidates: seq<Candidate>, id: Id, reply: Reply): seq<Script> {
    Forms(candidates, id, reply, 0) + [Last(id)]
  }

  /** What one document does: `ready` means its runner exists, `blocked` that it
      refuses to compile strings. */
  datatype Document = Document(ready: bool, blocked: bool, parsed: set<Id>, calls: seq<Call>)

  predicate Usable(d: Document, c: Candidate) {
    c.parses && !(c.needsEval && d.blocked)
  }

  function Evaluate(d: Document, s: Script): Document {
    match s
    case Form(id, index, c) =>
      if !c.parses || id in d.parsed || (c.needsEval && d.blocked) || !d.ready then d
      else d.(parsed := d.parsed + {id}, calls := d.calls + [RunBody(id, index)])
    case Last(id) =>
      if id in d.parsed then d.(parsed := d.parsed - {id})
      else if !d.ready then d
      else d.(calls := d.calls + [ReportSyntax(id)])
  }

  function EvaluateAll(d: Document, scripts: seq<Script>): Document {
    if scripts == [] then d else Evaluate(EvaluateAll(d, scripts[..|scripts| - 1]), scripts[|scripts| - 1])
  }

  /** The page as the object its scripts change. */
  class Page {
    const ready: bool
    const blocked: bool
    var parsed: set<Id>
    var calls: seq<Call>

    ghost function View(): Document
      reads this
    {
      Document(ready, blocked, parsed, calls)
    }

    constructor (ready: bool, blocked: bool)
      ensures View() == Document(ready, blocked, {}, [])
    {
      this.ready, this.blocked, this.parsed, this.calls := ready, blocked, {}, [];
    }

    method Eval(s: Script)
      modifies this
      ensures View() == Evaluate(old(View()), s)
    {
      if s.Form? {
        if !s.candidate.parses { return; }
        if s.id in parsed { return; }
        if s.candidate.needsEval && blocked { return; }
        if !ready { return; }
        parsed := parsed + {s.id};
        calls := calls + [RunBody(s.id, s.index)];
      } else {
        if s.id in parsed {
          parsed := parsed - {s.id};
          return;
        }
        if !ready { return; }
        calls := calls + [ReportSyntax(s.id)];
      }
    }

    /** One evaluation per script, in order. */
    method Deliver(scripts: seq<Script>)
      modifies this
      ensures View() == EvaluateAll(old(View()), scripts)
    {
      for i := 0 to |scripts|
        invariant View() == EvaluateAll(old(View()), scripts[..i])
      {
        assert scripts[..i + 1][..i] == scripts[..i];
        Eval(scripts[i]);
      }
      assert scripts[..|scripts|] == scripts;
    }
  }

  lemma {:induction false} EvaluateConcat(d: Document, a: seq<Script>, b: seq<Script>)
    ensures EvaluateAll(d, a + b) == EvaluateAll(EvaluateAll(d, a), b)
  {
    if b == [] {
      assert a + b == a;
    } else {
      assert (a + b)[..|a + b| - 1] == a + b[..|b| - 1];
      EvaluateConcat(d, a, b[..|b| - 1]);
    }
  }

  /** The first form from `from` on that this page will run. */
  function FirstUsable(d: Document, candidates: seq<Candidate>, reply: Reply, from: nat): nat
    requires from <= |candidates|
    ensures var k := FirstUsable(d, candidates, reply, from);
            && from <= k <= |candidates|
            && (k < |candidates| ==> Kept(candidates[k], reply) && Usable(d, candidates[k]))
            && (forall j :: from <= j < k ==> !(Kept(candidates[j], reply) && Usable(d, candidates[j])))
    decreases |candidates| - from
  {
    if from == |candidates| || (Kept(candidates[from], reply) && Usable(d, candidates[from])) then from
    else FirstUsable(d, candidates, reply, from + 1)
  }

  /** Once an id has parsed, its remaining forms do nothing. */
  lemma {:induction false} ParsedFormsAreInert(d: Document, candidates: seq<Candidate>, id: Id, reply: Reply, from: nat)
    requires from <= |candidates| && (id in d.parsed || !d.ready)
    ensures EvaluateAll(d, Forms(candidates, id, reply, from)) == d
    decreases |candidates| - from
  {
    if from < |candidates| {
      ParsedFormsAreInert(d, candidates, id, reply, from + 1);
      UnfoldForms(d, candidates, id, reply, from);
    }
  }

  lemma UnfoldForms(d: Document, candidates: seq<Candidate>, id: Id, reply: Reply, from: nat)
    requires from < |candidates|
    ensures EvaluateAll(d, Forms(candidates, id, reply, from))
            == EvaluateAll(if Kept(candidates[from], reply) then Evaluate(d, Form(id, from, candidates[from])) else d,
                           Forms(candidates, id, reply, from + 1))
  {
    var form := Form(id, from, candidates[from]);
    if Kept(candidates[from], reply) {
      EvaluateConcat(d, [form], Forms(candidates, id, reply, from + 1));
      assert EvaluateAll(d, [form]) == Evaluate(EvaluateAll(d, []), form);
    } else {
      assert Forms(candidates, id, reply, from) == Forms(candidates, id, reply, from + 1);
    }
  }

  lemma {:induction false} FormsRunTheFirst(d: Document, candidates: seq<Candidate>, id: Id, reply: Reply, from: nat)
    requires from <= |candidates| && id !in d.parsed && d.ready
    ensures
      var k := FirstUsable(d, candidates, reply, from);
      EvaluateAll(d, Forms(candidates, id, reply, from))
      == if k < |candidates|
         then d.(parsed := d.parsed + {id}, calls := d.calls + [RunBody(id, k)])
         else d
    decreases |candidates| - from
  {
    if from < |candidates| {
      UnfoldForms(d, candidates, id, reply, from);
      if Kept(candidates[from], reply) && Usable(d, candidates[from]) {
        ParsedFormsAreInert(Evaluate(d, Form(id, from, candidates[from])), candidates, id, reply, from + 1);
      } else {
        FormsRunTheFirst(d, candidates, id, reply, from + 1);
      }
    }
  }

  /** A whole delivery to a ready page calls the runner exactly once, with the
      first form the page can use or with the syntax error, and leaves no trace
      of its id. A page without the runner is left as it was, and a mark that an
      unfinished delivery of the same id left behind is cleared without a call. */
  lemma DeliveryRunsExactlyOnce(d: Document, candidates: seq<Candidate>, id: Id, reply: Reply)
    ensures
      var k := FirstUsable(d, candidates, reply, 0);
      EvaluateAll(d, NativeScripts(candidates, id, reply))
      == if id in d.parsed then d.(parsed := d.parsed - {id})
         else if !d.ready then d
         else d.(calls := d.calls + [if k < |candidates| then RunBody(id, k) else ReportSyntax(id)])
  {
    var forms := Forms(candidates, id, reply, 0);
    assert NativeScripts(candidates, id, reply)[..|forms|] == forms;
    if d.ready && id !in d.parsed {
      FormsRunTheFirst(d, candidates, id, reply, 0);
    } else {
      ParsedFormsAreInert(d, candidates, id, reply, 0);
    }
  }

  /** The form parses, and if it compiles strings, the reply is an event's and the
      page allows it. */
  predicate Runs(d: Document, c: Candidate, reply: Reply) {
    c.parses && (c.needsEval ==> reply == Event && !d.blocked)
  }

  /** On a ready page the call is for the first form that runs there, or reports the
      syntax error if none does. */
  lemma FirstFormRuns(d: Document, candidates: seq<Candidate>, id: Id, reply: Reply) returns (k: nat)
    requires d.ready && id !in d.parsed
    ensures k <= |candidates| && forall j :: 0 <= j < k ==> !Runs(d, candidates[j], reply)
    ensures EvaluateAll(d, NativeScripts(candidates, id, reply)).calls
         == d.calls + [if k < |candidates| then RunBody(id, k) else ReportSyntax(id)]
    ensures k < |candidates| ==> Runs(d, candidates[k], reply)
  {
    DeliveryRunsExactlyOnce(d, candidates, id, reply);
    k := FirstUsable(d, candidates, reply, 0);
    assert forall j :: 0 <= j < k ==> !(Kept(candidates[j], reply) && Usable(d, candidates[j]));
    hide NativeScripts, EvaluateAll;
  }

  predicate OneCall(calls: seq<Call>, id: Id) {
    |calls| == 0 || (|calls| == 1 && calls[0].id == id)
  }

  /** A sequence cut short, because a later injection failed, has called the
      runner at most once. */
  lemma {:induction false} PartialDeliveryRunsAtMostOnce(d: Document, candidates: seq<Candidate>, id: Id,
                                                         reply: Reply, n: nat)
    requires id !in d.parsed && n <= |NativeScripts(candidates, id, reply)|
    ensures
      var e := EvaluateAll(d, NativeScripts(candidates, id, reply)[..n]);
      && e.ready == d.ready && d.calls <= e.calls && OneCall(e.calls[|d.calls|..], id)
      && (n < |NativeScripts(candidates, id, reply)| ==>
            (id in e.parsed <==> |e.calls| == |d.calls| + 1))
  {
    var scripts := NativeScripts(candidates, id, reply);
    if n > 0 {
      PartialDeliveryRunsAtMostOnce(d, candidates, id, reply, n - 1);
      assert scripts[..n][..n - 1] == scripts[..n - 1];
      FormsHaveId(candidates, id, reply, 0);
      if n < |scripts| { assert scripts[n - 1] in Forms(candidates, id, reply, 0); }
    }
  }

  lemma {:induction false} FormsHaveId(candidates: seq<Candidate>, id: Id, reply: Reply, from: nat)
    requires from <= |candidates|
    ensures forall s :: s in Forms(candidates, id, reply, from) ==> s.Form? && s.id == id
    decreases |candidates| - from
  {
    if from < |candidates| {
      FormsHaveId(candidates, id, reply, from + 1);
    }
  }
}
