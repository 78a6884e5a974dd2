/**
 The page's console log: a buffer of the last 500 entries, numbered as they
 come, from which two consumers take what is new. Before the bridge exists an
 early buffer keeps the last 500 messages and counts the rest.
 */
module ConsoleLog {
  import opened Wrappers

  const MAX_LOGS := 500

  datatype Message = Message(level: string, text: string, timestamp: int)

  datatype Entry = Entry(message: Message, seqNo: nat)

  /** The console as the page sees it; `last` is the last number taken. */
  datatype State = State(logs: seq<Entry>, count: nat, last: nat)

  const START := State([], 0, 0)

  /** The last `n` of a sequence. */
  function Newest<T>(s: seq<T>, n: nat): seq<T> {
    if |s| <= n then s else s[|s| - n..]
  }

  function DoLog(s: State, m: Message): State {
    State(Newest(s.logs + [Entry(m, s.count + 1)], MAX_LOGS), s.count + 1, s.last)
  }

  /** The messages numbered past `last`. */
  function Pending(logs: seq<Entry>, last: nat): seq<Message> {
    if logs == [] then []
    else
      var n := |logs| - 1;
      Pending(logs[..n], last) + if logs[n].seqNo > last then [logs[n].message] else []
  }

  function DoTake(s: State): State {
    if s.logs == [] then s
    else
      var newest := s.logs[|s.logs| - 1].seqNo;
      s.(last := if newest > s.last then newest else s.last)
  }

  // -------------------------------------------------------------- the stream

  /** What happens to the console; either consumer takes. */
  datatype Event = Log(m: Message) | Take

  function Outputs(s: State, events: seq<Event>): seq<seq<Message>>
    decreases events
  {
    if events == [] then []
    else
      match events[0]
      case Log(m) => Outputs(DoLog(s, m), events[1..])
      case Take => [Pending(s.logs, s.last)] + Outputs(DoTake(s), events[1..])
  }

  /** The simple stream: a take returns the newest 500 messages of all that came
      since the take before, and forgets them. */
  function StreamOutputs(waiting: seq<Message>, events: seq<Event>): seq<seq<Message>>
    decreases events
  {
    if events == [] then []
    else
      match events[0]
      case Log(m) => StreamOutputs(waiting + [m], events[1..])
      case Take => [Newest(waiting, 500)] + StreamOutputs([], events[1..])
  }

  function Messages(logs: seq<Entry>): seq<Message> {
    seq(|logs|, i requires 0 <= i < |logs| => logs[i].message)
  }

  /** The buffer holds the newest messages of `all`, with consecutive numbers. */
  ghost predicate Holds(s: State, all: seq<Message>) {
    && s.count == |all| && s.last <= s.count
    && Messages(s.logs) == Newest(all, 500)
    && forall i :: 0 <= i < |s.logs| ==> s.logs[i].seqNo == s.count - |s.logs| + 1 + i
  }

  lemma LogHolds(s: State, all: seq<Message>, m: Message)
    requires Holds(s, all)
    ensures Holds(DoLog(s, m), all + [m])
  {
  }

  lemma {:induction false} PendingIsSuffix(logs: seq<Entry>, count: nat, last: nat)
    requires forall i :: 0 <= i < |logs| ==> logs[i].seqNo == count - |logs| + 1 + i
    requires |logs| <= count
    ensures Pending(logs, last)
         == if last >= count then [] else Newest(Messages(logs), count - last)
  {
    if logs != [] {
      var n := |logs| - 1;
      PendingIsSuffix(logs[..n], count - 1, last);
      assert Messages(logs) == Messages(logs[..n]) + [logs[n].message];
    }
  }

  lemma TakeHolds(s: State, all: seq<Message>)
    requires Holds(s, all)
    ensures Pending(s.logs, s.last) == Newest(all[s.last..], 500)
    ensures Holds(DoTake(s), all) && DoTake(s).last == |all|
  {
    assert |Messages(s.logs)| == |s.logs| == |Newest(all, MAX_LOGS)|;
    PendingIsSuffix(s.logs, s.count, s.last);
    if s.last < s.count {
      assert Newest(Newest(all, MAX_LOGS), s.count - s.last) == Newest(all[s.last..], MAX_LOGS);
    }
  }

  /** Every interleaving of logging and taking gives what the stream gives. */
  lemma {:induction false} TakesMatchTheStream(s: State, all: seq<Message>, events: seq<Event>)
    requires Holds(s, all)
    ensures Outputs(s, events) == StreamOutputs(all[s.last..], events)
    decreases events
  {
    if events != [] {
      match events[0]
      case Log(m) =>
        LogHolds(s, all, m);
        TakesMatchTheStream(DoLog(s, m), all + [m], events[1..]);
        assert (all + [m])[s.last..] == all[s.last..] + [m];
      case Take =>
        TakeHolds(s, all);
        TakesMatchTheStream(DoTake(s), all, events[1..]);
        assert all[|all|..] == [];
    }
  }

  function Logged(events: seq<Event>): seq<Message> {
    if events == [] then []
    else (match events[0] case Log(m) => [m] case Take => []) + Logged(events[1..])
  }

  function Joined(outs: seq<seq<Message>>): seq<Message> {
    if outs == [] then [] else outs[0] + Joined(outs[1..])
  }

  /** No 501 messages come between two takes, counting those already waiting. */
  predicate Unhurried(waiting: nat, events: seq<Event>)
    decreases events
  {
    waiting <= 500 &&
    (events == [] ||
     match events[0]
     case Log(_) => Unhurried(waiting + 1, events[1..])
     case Take => Unhurried(0, events[1..]))
  }

  /** What is still waiting after the events. */
  function Left(waiting: seq<Message>, events: seq<Event>): seq<Message>
    decreases events
  {
    if events == [] then waiting
    else
      match events[0]
      case Log(m) => Left(waiting + [m], events[1..])
      case Take => Left([], events[1..])
  }

  lemma {:induction false} StreamLosesNothing(waiting: seq<Message>, events: seq<Event>)
    requires Unhurried(|waiting|, events)
    ensures Joined(StreamOutputs(waiting, events)) + Left(waiting, events) == waiting + Logged(events)
    decreases events
  {
    if events != [] {
      match events[0]
      case Log(m) =>
        StreamLosesNothing(waiting + [m], events[1..]);
        assert waiting + [m] + Logged(events[1..]) == waiting + ([m] + Logged(events[1..]));
      case Take =>
        StreamLosesNothing([], events[1..]);
        var rest := StreamOutputs([], events[1..]);
        assert StreamOutputs(waiting, events)[1..] == rest;
        assert waiting + (Joined(rest) + Left([], events[1..])) == waiting + Logged(events[1..]);
    }
  }

  /** From the start, if nobody is late, the takes together with what is waiting
      are the whole log: in order, nothing twice, nothing lost. */
  lemma TakesAreTheLog(events: seq<Event>)
    requires Unhurried(0, events)
    ensures Joined(Outputs(START, events)) + Left([], events) == Logged(events)
  {
    assert Holds(START, []) by { assert Messages([]) == []; }
    var none: seq<Message> := [];
    assert none[0..] == none;
    TakesMatchTheStream(START, [], events);
    StreamLosesNothing([], events);
  }

  /** What each take leaves behind for good: all but the newest 500. */
  function Lost(waiting: seq<Message>, events: seq<Event>): seq<seq<Message>>
    decreases events
  {
    if events == [] then []
    else
      match events[0]
      case Log(m) => Lost(waiting + [m], events[1..])
      case Take => [waiting[..|waiting| - |Newest(waiting, 500)|]] + Lost([], events[1..])
  }

  function Woven(lost: seq<seq<Message>>, outs: seq<seq<Message>>): seq<Message>
    requires |lost| == |outs|
  {
    if outs == [] then [] else lost[0] + outs[0] + Woven(lost[1..], outs[1..])
  }

  lemma {:induction false} StreamWeaves(waiting: seq<Message>, events: seq<Event>)
    ensures |Lost(waiting, events)| == |StreamOutputs(waiting, events)|
    ensures Woven(Lost(waiting, events), StreamOutputs(waiting, events)) + Left(waiting, events)
         == waiting + Logged(events)
    decreases events
  {
    if events != [] {
      match events[0]
      case Log(m) =>
        StreamWeaves(waiting + [m], events[1..]);
        assert waiting + [m] + Logged(events[1..]) == waiting + ([m] + Logged(events[1..]));
      case Take =>
        StreamWeaves([], events[1..]);
        TakeWoven(waiting, events);
    }
  }

  lemma WovenOne(before: seq<Message>, newest: seq<Message>, lost: seq<seq<Message>>, outs: seq<seq<Message>>,
                 left: seq<Message>, logged: seq<Message>)
    requires |lost| == |outs| && Woven(lost, outs) + left == logged
    ensures Woven([before] + lost, [newest] + outs) + left == before + newest + logged
  {
  }

  lemma TakeWoven(waiting: seq<Message>, events: seq<Event>)
    requires events != [] && events[0].Take?
    requires |Lost([], events[1..])| == |StreamOutputs([], events[1..])|
    requires Woven(Lost([], events[1..]), StreamOutputs([], events[1..])) + Left([], events[1..])
          == [] + Logged(events[1..])
    ensures |Lost(waiting, events)| == |StreamOutputs(waiting, events)|
    ensures Woven(Lost(waiting, events), StreamOutputs(waiting, events)) + Left(waiting, events)
         == waiting + Logged(events)
  {
    var newest := Newest(waiting, 500);
    var before := waiting[..|waiting| - |newest|];
    var lost, outs, left := Lost([], events[1..]), StreamOutputs([], events[1..]), Left([], events[1..]);
    assert before + newest == waiting;
    assert [] + Logged(events[1..]) == Logged(events[1..]) == Logged(events);
    WovenOne(before, newest, lost, outs, left, Logged(events));
  }

  /** Every message is taken once, lost before the take that follows it, or still
      waiting; together they are the log, in its order. */
  lemma EveryMessageOnce(events: seq<Event>)
    ensures |Lost([], events)| == |Outputs(START, events)|
    ensures Woven(Lost([], events), Outputs(START, events)) + Left([], events) == Logged(events)
  {
    assert Holds(START, []) by { assert Messages([]) == []; }
    var none: seq<Message> := [];
    assert none[0..] == none && none + Logged(events) == Logged(events);
    TakesMatchTheStream(START, [], events);
    StreamWeaves([], events);
  }

  // --------------------------------------------------------- the early buffer

  /** `logs` is gone once the bridge has adopted it. */
  datatype Early = Early(logs: Option<seq<Message>>, dropped: nat)

  function DoEarly(e: Early, m: Message): Early {
    match e.logs
    case None => e
    case Some(logs) =>
      if |logs| + 1 > MAX_LOGS then Early(Some((logs + [m])[1..]), e.dropped + 1)
      else Early(Some(logs + [m]), e.dropped)
  }

  function EarlyRun(ms: seq<Message>): Early {
    if ms == [] then Early(Some([]), 0)
    else DoEarly(EarlyRun(ms[..|ms| - 1]), ms[|ms| - 1])
  }

  /** Kept and dropped add up to what was logged, and the newest are kept. */
  lemma {:induction false} EarlyAddsUp(ms: seq<Message>)
    ensures EarlyRun(ms).logs == Some(Newest(ms, 500))
    ensures |EarlyRun(ms).logs.value| + EarlyRun(ms).dropped == |ms|
  {
    if ms != [] {
      EarlyAddsUp(ms[..|ms| - 1]);
      var kept, m := Newest(ms[..|ms| - 1], MAX_LOGS), ms[|ms| - 1];
      assert Newest(ms, MAX_LOGS) == if |ms| > MAX_LOGS then (kept + [m])[1..] else kept + [m];
    }
  }

  function Pushed(s: State, ms: seq<Message>): State {
    if ms == [] then s
    else
      var t := Pushed(s, ms[..|ms| - 1]);
      State(t.logs + [Entry(ms[|ms| - 1], t.count + 1)], t.count + 1, t.last)
  }

  /** The notice, if any were dropped, then the early messages, then the trim. */
  function DoAdopt(s: State, e: Early, notice: Message): State {
    match e.logs
    case None => s
    case Some(early) =>
      var t := Pushed(s, (if e.dropped > 0 then [notice] else []) + early);
      t.(logs := Newest(t.logs, MAX_LOGS))
  }

  lemma {:induction false} PushedHolds(ms: seq<Message>)
    ensures var t := Pushed(START, ms);
            t.count == |ms| == |t.logs| && t.last == 0 && Messages(t.logs) == ms &&
            forall i :: 0 <= i < |t.logs| ==> t.logs[i].seqNo == i + 1
  {
    if ms != [] {
      var n := |ms| - 1;
      PushedHolds(ms[..n]);
      var t := Pushed(START, ms[..n]);
      assert Messages(t.logs + [Entry(ms[n], t.count + 1)]) == Messages(t.logs) + [ms[n]];
    }
  }

  lemma AdoptHolds(e: Early, notice: Message)
    requires e.logs.Some?
    ensures Holds(DoAdopt(START, e, notice), (if e.dropped > 0 then [notice] else []) + e.logs.value)
    ensures DoAdopt(START, e, notice).last == 0
  {
    var ms := (if e.dropped > 0 then [notice] else []) + e.logs.value;
    PushedHolds(ms);
    var t := Pushed(START, ms);
    var logs := Newest(t.logs, MAX_LOGS);
    assert Messages(logs) == Newest(Messages(t.logs), MAX_LOGS);
  }

  /** The notice that early messages were dropped never reaches a consumer: the
      500 kept messages that follow it always push it out again. The first
      take gives the newest early messages and nothing else. */
  lemma NoticeNeverArrives(ms: seq<Message>, notice: Message)
    ensures var s := DoAdopt(START, EarlyRun(ms), notice);
            Pending(s.logs, s.last) == Newest(ms, 500)
  {
    EarlyAddsUp(ms);
    var e := EarlyRun(ms);
    AdoptHolds(e, notice);
    var all := (if e.dropped > 0 then [notice] else []) + e.logs.value;
    TakeHolds(DoAdopt(START, e, notice), all);
    assert all[0..] == all;
    if e.dropped > 0 {
      assert Newest([notice] + e.logs.value, MAX_LOGS) == e.logs.value;
    }
  }

  // --------------------------------------------------------------- the objects

  class EarlyConsole {
    var logs: Option<seq<Message>>
    var dropped: nat

    function View(): Early
      reads this
    {
      Early(logs, dropped)
    }

    constructor ()
      ensures View() == EarlyRun([])
    {
      logs, dropped := Some([]), 0;
    }

    method Log(m: Message)
      modifies this
      ensures View() == DoEarly(old(View()), m)
    {
      if logs.Some? {
        logs := Some(logs.value + [m]);
        if |logs.value| > MAX_LOGS {
          logs := Some(logs.value[1..]);
          dropped := dropped + 1;
        }
      }
    }
  }

  class Console {
    var consoleLogs: seq<Entry>
    var consoleSeq: nat
    var lastLogPushSeq: nat

    function View(): State
      reads this
    {
      State(consoleLogs, consoleSeq, lastLogPushSeq)
    }

    predicate Valid()
      reads this
    {
      |consoleLogs| <= MAX_LOGS
    }

    constructor ()
      ensures Valid() && View() == START
    {
      consoleLogs, consoleSeq, lastLogPushSeq := [], 0, 0;
    }

    method Push(m: Message)
      modifies this
      ensures View() == Pushed(old(View()), [m])
    {
      consoleSeq := consoleSeq + 1;
      consoleLogs := consoleLogs + [Entry(m, consoleSeq)];
      assert [m][..0] == [];
    }

    method Log(m: Message)
      requires Valid()
      modifies this
      ensures Valid() && View() == DoLog(old(View()), m)
    {
      Push(m);
      assert [m][..0] == [];
      if |consoleLogs| > MAX_LOGS {
        consoleLogs := consoleLogs[1..];
      }
    }

    /** Takes over the early buffer and stops its capture. */
    method Adopt(early: EarlyConsole, notice: Message)
      modifies this, early
      ensures View() == DoAdopt(old(View()), old(early.View()), notice)
      ensures early.View() == Early(None, old(early.dropped))
    {
      hide Pushed, Newest;
      if early.logs.None? {
        return;
      }
      var logs := early.logs.value;
      early.logs := None;
      var all := (if early.dropped > 0 then [notice] else []) + logs;
      PushAll(all);
      Trim();
    }

    method PushAll(ms: seq<Message>)
      modifies this
      ensures View() == Pushed(old(View()), ms)
    {
      for i := 0 to |ms|
        invariant View() == Pushed(old(View()), ms[..i])
      {
        PushedOne(old(View()), ms[..i], ms[i]);
        assert ms[..i] + [ms[i]] == ms[..i + 1];
        Push(ms[i]);
      }
      assert ms[..|ms|] == ms;
    }

    method Trim()
      modifies `consoleLogs
      ensures consoleLogs == Newest(old(consoleLogs), MAX_LOGS)
    {
      ghost var all := consoleLogs;
      while |consoleLogs| > MAX_LOGS
        invariant |consoleLogs| <= |all| && consoleLogs == all[|all| - |consoleLogs|..]
        invariant |consoleLogs| >= MAX_LOGS || consoleLogs == all
      {
        consoleLogs := consoleLogs[1..];
      }
    }

    lemma PushedOne(s: State, ms: seq<Message>, m: Message)
      ensures Pushed(Pushed(s, ms), [m]) == Pushed(s, ms + [m])
    {
    }

    /** `takePendingLogs`, for either consumer. */
    method TakePending() returns (pending: seq<Message>)
      modifies `lastLogPushSeq
      ensures pending == Pending(old(consoleLogs), old(lastLogPushSeq))
      ensures View() == DoTake(old(View()))
    {
      pending := [];
      for i := 0 to |consoleLogs|
        invariant pending == Pending(consoleLogs[..i], lastLogPushSeq)
        invariant lastLogPushSeq == old(lastLogPushSeq)
      {
        assert consoleLogs[..i + 1][..i] == consoleLogs[..i];
        var l := consoleLogs[i];
        if l.seqNo > lastLogPushSeq {
          pending := pending + [l.message];
        }
      }
      assert consoleLogs[..|consoleLogs|] == consoleLogs;
      if consoleLogs != [] {
        var newest := consoleLogs[|consoleLogs| - 1].seqNo;
        lastLogPushSeq := if newest > lastLogPushSeq then newest else lastLogPushSeq;
      }
    }
  }
}
