/** The timeout handler of pkg/apiserver/handlers.go: a handler and a timeout race for one response. */
module TimeoutWriter {

  /** What the wrapped writer is asked to do, and the moment the timeout fires. `Hijacked` is a
      hijack that succeeded. */
  datatype Event =
    | HandlerStatus(code: int)
    | HandlerBody(data: string)
    | TimeoutStatus
    | TimeoutBody(msg: string)
    | Hijacked
    | HijackFailed
    | Flushed
    | TimeoutFired

  datatype State = State(timedOut: bool, wroteHeader: bool, hijacked: bool, log: seq<Event>)

  /** One critical section of the writer. `ok` is whether the wrapped writer lets itself be hijacked. */
  datatype Step = Write(data: string) | WriteHeader(code: int) | Flush | Hijack(ok: bool) | Timeout(msg: string)

  const START := State(false, false, false, [])

  function Next(s: State, step: Step): State {
    match step
    case Write(data) =>
      if s.hijacked || s.timedOut then s.(wroteHeader := true)
      else s.(wroteHeader := true, log := s.log + [HandlerBody(data)])
    case WriteHeader(code) =>
      if s.timedOut || s.wroteHeader || s.hijacked then s
      else s.(wroteHeader := true, log := s.log + [HandlerStatus(code)])
    case Flush => s.(log := s.log + [Flushed])
    case Hijack(ok) =>
      if s.timedOut then s
      else if ok then s.(hijacked := true, log := s.log + [Hijacked])
      else s.(log := s.log + [HijackFailed])
    case Timeout(msg) =>
      s.(timedOut := true, log := s.log + Response(s, msg) + [TimeoutFired])
  }

  function Response(s: State, msg: string): seq<Event> {
    if !s.wroteHeader && !s.hijacked then [TimeoutStatus, TimeoutBody(msg)] else []
  }

  function Run(steps: seq<Step>): State {
    if steps == [] then START else Next(Run(steps[..|steps| - 1]), steps[|steps| - 1])
  }

  /** The wrapper itself: each method holds the mutex for its whole body. */
  class BaseTimeoutWriter {
    var timedOut: bool
    var wroteHeader: bool
    var hijacked: bool
    var log: seq<Event>

    function Now(): State
      reads this
    {
      State(timedOut, wroteHeader, hijacked, log)
    }

    constructor ()
      ensures Now() == START
    {
      timedOut, wroteHeader, hijacked, log := false, false, false, [];
    }

    method Write(data: string) returns (ok: bool)
      modifies this
      ensures Now() == Next(old(Now()), Step.Write(data))
      ensures ok <==> !old(hijacked) && !old(timedOut)
    {
      wroteHeader := true;
      if hijacked {
        return false;
      }
      if timedOut {
        return false;
      }
      log := log + [HandlerBody(data)];
      return true;
    }

    method WriteHeader(code: int)
      modifies this
      ensures Now() == Next(old(Now()), Step.WriteHeader(code))
    {
      if timedOut || wroteHeader || hijacked {
        return;
      }
      wroteHeader := true;
      log := log + [HandlerStatus(code)];
    }

    method Flush()
      modifies this
      ensures Now() == Next(old(Now()), Step.Flush)
    {
      log := log + [Flushed];
    }

    method Timeout(msg: string)
      modifies this
      ensures Now() == Next(old(Now()), Step.Timeout(msg))
    {
      ghost var before := Now();
      if !wroteHeader && !hijacked {
        log := log + [TimeoutStatus];
        log := log + [TimeoutBody(msg)];
      }
      assert log == before.log + Response(before, msg);
      timedOut := true;
      log := log + [TimeoutFired];
    }

    /** `ok` is what the wrapped writer answers. */
    method Hijack(ok: bool) returns (success: bool)
      modifies this
      ensures Now() == Next(old(Now()), Step.Hijack(ok))
      ensures success <==> ok && !old(timedOut)
    {
      if timedOut {
        return false;
      }
      if ok {
        log := log + [Hijacked];
        hijacked := true;
        return true;
      }
      log := log + [HijackFailed];
      return false;
    }
  }

  // ---- What the wrapped writer sees in every interleaving with a single timeout ----

  predicate OneTimeout(steps: seq<Step>) {
    forall i, j :: 0 <= i < j < |steps| ==> !(steps[i].Timeout? && steps[j].Timeout?)
  }

  predicate IsStatus(e: Event) { e.HandlerStatus? || e.TimeoutStatus? }

  predicate FromHandler(e: Event) { e.HandlerStatus? || e.HandlerBody? }

  predicate FromTimeout(e: Event) { e.TimeoutStatus? || e.TimeoutBody? }

  /** What may come after what: at most one explicit status, and none after a body byte; nothing from
      the timeout after the handler sent something or hijacked; nothing from the handler or the
      timeout after a hijack; nothing from the handler, and no hijack, after the timeout. */
  predicate MayPrecede(a: Event, b: Event) {
    && (IsStatus(b) ==> !IsStatus(a) && !a.HandlerBody?)
    && (FromTimeout(b) ==> !FromHandler(a) && !a.Hijacked?)
    && (a.Hijacked? ==> !FromHandler(b) && !FromTimeout(b))
    && (FromTimeout(a) || a.TimeoutFired? ==> !FromHandler(b) && !b.Hijacked?)
  }

  ghost predicate Proper(log: seq<Event>) {
    forall i, j :: 0 <= i < j < |log| ==> MayPrecede(log[i], log[j])
  }

  /** What the flags say about an event that has happened. */
  predicate Remembered(s: State, e: Event) {
    && (FromHandler(e) ==> s.wroteHeader)
    && (e.Hijacked? ==> s.hijacked)
    && (FromTimeout(e) || e.TimeoutFired? ==> s.timedOut)
  }

  ghost predicate Remembers(s: State) {
    forall i :: 0 <= i < |s.log| ==> Remembered(s, s.log[i])
  }

  /** The response has begun, or the connection is out of our hands. */
  predicate Answers(e: Event) { FromHandler(e) || e.Hijacked? || e.TimeoutStatus? }

  /** A raised flag has its reason in the log. */
  ghost predicate Justified(s: State) {
    s.timedOut || s.wroteHeader || s.hijacked ==> exists i :: 0 <= i < |s.log| && Answers(s.log[i])
  }

  lemma ProperAppend(log: seq<Event>, e: Event)
    requires Proper(log) && forall i :: 0 <= i < |log| ==> MayPrecede(log[i], e)
    ensures Proper(log + [e])
  {
  }

  lemma NextKeepsProper(s: State, step: Step)
    requires Proper(s.log) && Remembers(s) && (step.Timeout? ==> !s.timedOut)
    ensures Proper(Next(s, step).log) && Remembers(Next(s, step))
  {
    assert forall i :: 0 <= i < |s.log| ==> Remembered(s, s.log[i]);
    match step
    case Write(data) => if !s.hijacked && !s.timedOut { ProperAppend(s.log, HandlerBody(data)); }
    case WriteHeader(code) =>
      if !s.timedOut && !s.wroteHeader && !s.hijacked { ProperAppend(s.log, HandlerStatus(code)); }
    case Flush => ProperAppend(s.log, Flushed);
    case Hijack(ok) => if !s.timedOut { ProperAppend(s.log, if ok then Hijacked else HijackFailed); }
    case Timeout(msg) =>
      ResponseIsProper(s, msg);
      hide Response;
      ProperAppend(s.log + Response(s, msg), TimeoutFired);
  }

  lemma ResponseIsProper(s: State, msg: string)
    requires Proper(s.log) && Remembers(s) && !s.timedOut
    ensures Proper(s.log + Response(s, msg))
    ensures Remembers(s.(timedOut := true, log := s.log + Response(s, msg)))
  {
    assert forall i :: 0 <= i < |s.log| ==> Remembered(s, s.log[i]);
    if !s.wroteHeader && !s.hijacked {
      ProperAppend(s.log, TimeoutStatus);
      ProperAppend(s.log + [TimeoutStatus], TimeoutBody(msg));
      assert s.log + [TimeoutStatus] + [TimeoutBody(msg)] == s.log + Response(s, msg);
    } else {
      assert s.log + Response(s, msg) == s.log;
    }
  }

  lemma NextKeepsJustified(s: State, step: Step)
    requires Justified(s)
    ensures Justified(Next(s, step))
  {
    var t := Next(s, step);
    if s.timedOut || s.wroteHeader || s.hijacked {
      var i :| 0 <= i < |s.log| && Answers(s.log[i]);
      assert t.log[i] == s.log[i];
    } else if t.timedOut || t.wroteHeader || t.hijacked {
      assert Answers(t.log[|s.log|]);
    }
  }

  lemma {:induction false} TimedOutOnlyByTimeout(steps: seq<Step>)
    ensures Run(steps).timedOut ==> exists i :: 0 <= i < |steps| && steps[i].Timeout?
  {
    if steps != [] {
      var n := |steps| - 1;
      TimedOutOnlyByTimeout(steps[..n]);
      if Run(steps[..n]).timedOut {
        var i :| 0 <= i < n && steps[..n][i].Timeout?;
        assert steps[i].Timeout?;
      } else if Run(steps).timedOut {
        assert steps[n].Timeout?;
      }
    }
  }

  /** Every interleaving with one timeout leaves a proper log. */
  lemma {:induction false} RunsAreProper(steps: seq<Step>)
    requires OneTimeout(steps)
    ensures Proper(Run(steps).log) && Remembers(Run(steps))
  {
    hide Next, Proper, Remembers;
    if steps != [] {
      var n := |steps| - 1;
      RunsAreProper(steps[..n]);
      TimedOutOnlyByTimeout(steps[..n]);
      NextKeepsProper(Run(steps[..n]), steps[n]);
    } else {
      NothingHasHappened();
    }
  }

  lemma NothingHasHappened()
    ensures Proper(START.log) && Remembers(START) && Justified(START)
  {
  }

  /** Once the timeout has fired, the client has an answer: the handler's, the timeout's, or a hijack. */
  lemma {:induction false} TimedOutRequestsAreAnswered(steps: seq<Step>)
    ensures Justified(Run(steps))
  {
    if steps != [] {
      TimedOutRequestsAreAnswered(steps[..|steps| - 1]);
      NextKeepsJustified(Run(steps[..|steps| - 1]), steps[|steps| - 1]);
    }
  }

  /** The guarantee rests on the timeout firing once: fired twice, it would send two statuses. */
  lemma TwoTimeoutsSendTwoStatuses(msg: string)
    ensures var log := Next(Next(START, Timeout(msg)), Timeout(msg)).log;
            |log| == 6 && log[0].TimeoutStatus? && log[3].TimeoutStatus?
  {
  }

  // ---- Flushing is not guarded ----

  /** A timeout status sent after a flush, which has already sent the header. */
  ghost predicate LateStatus(log: seq<Event>) {
    exists i, j :: 0 <= i < j < |log| && log[i].Flushed? && log[j].TimeoutStatus?
  }

  /** The handler has neither sent a header or body nor taken the connection over. */
  predicate Quiet(steps: seq<Step>) {
    forall i :: 0 <= i < |steps| ==> !steps[i].Write? && !steps[i].WriteHeader? && steps[i] != Hijack(true)
  }

  predicate HasFlush(steps: seq<Step>) { exists i :: 0 <= i < |steps| && steps[i].Flush? }

  predicate HasTimeout(steps: seq<Step>) { exists i :: 0 <= i < |steps| && steps[i].Timeout? }

  /** The timeout fires on a handler that has flushed and otherwise been quiet. */
  ghost predicate TimesOutAfterFlush(steps: seq<Step>) {
    exists k :: 0 <= k < |steps| && steps[k].Timeout? && Quiet(steps[..k]) && HasFlush(steps[..k])
  }

  lemma {:induction false} FlagsBeforeTimeout(steps: seq<Step>)
    requires !HasTimeout(steps)
    ensures !Run(steps).timedOut && (Run(steps).wroteHeader || Run(steps).hijacked <==> !Quiet(steps))
  {
    if steps != [] {
      var n := |steps| - 1;
      assert forall i :: 0 <= i < n ==> steps[..n][i] == steps[i];
      FlagsBeforeTimeout(steps[..n]);
    }
  }

  predicate HasFlushed(log: seq<Event>) { exists i :: 0 <= i < |log| && log[i].Flushed? }

  lemma {:induction false} FlushesAreLogged(steps: seq<Step>)
    ensures HasFlushed(Run(steps).log) <==> HasFlush(steps)
  {
    hide HasFlushed, Next;
    if steps == [] {
      NothingFlushed();
    } else {
      var n := |steps| - 1;
      FlushesAreLogged(steps[..n]);
      StepLogsFlush(Run(steps[..n]), steps[n]);
      if HasFlush(steps[..n]) {
        var j :| 0 <= j < n && steps[..n][j].Flush?;
        assert steps[j].Flush?;
      } else if HasFlush(steps) {
        var j :| 0 <= j <= n && steps[j].Flush?;
        assert j < n ==> steps[..n][j].Flush?;
      }
    }
  }

  lemma NothingFlushed()
    ensures !HasFlushed(START.log)
  {
  }

  lemma StepLogsFlush(s: State, step: Step)
    ensures HasFlushed(Next(s, step).log) <==> HasFlushed(s.log) || step.Flush?
  {
    var t := Next(s, step);
    assert |s.log| <= |t.log| && forall i :: 0 <= i < |s.log| ==> t.log[i] == s.log[i];
    assert step.Flush? ==> t.log[|s.log|].Flushed?;
    assert forall i :: |s.log| <= i < |t.log| && t.log[i].Flushed? ==> step.Flush?;
    if HasFlushed(s.log) {
      var i :| 0 <= i < |s.log| && s.log[i].Flushed?;
      assert t.log[i].Flushed?;
    }
  }

  /** With one timeout, its status comes after a flush exactly when the handler had flushed and otherwise been quiet:
      a flush sends the header, but is not remembered. */
  lemma {:induction false} LateStatusIff(steps: seq<Step>)
    requires OneTimeout(steps)
    ensures LateStatus(Run(steps).log) <==> TimesOutAfterFlush(steps)
  {
    if steps != [] {
      var n := |steps| - 1;
      var front := steps[..n];
      assert forall i :: 0 <= i < n ==> front[i] == steps[i] && front[..i] == steps[..i];
      LateStatusIff(front);
      if steps[n].Timeout? {
        assert !HasTimeout(front);
        FlagsBeforeTimeout(front);
        FlushesAreLogged(front);
        LateStatusByTimeout(Run(front), steps[n].msg);
      } else {
        LateStatusOtherwise(Run(front), steps[n]);
      }
    }
  }

  lemma LateStatusByTimeout(s: State, msg: string)
    requires !LateStatus(s.log)
    ensures LateStatus(Next(s, Timeout(msg)).log) <==>
              !s.wroteHeader && !s.hijacked && HasFlushed(s.log)
  {
    var t := Next(s, Timeout(msg));
    assert forall i :: 0 <= i < |s.log| ==> t.log[i] == s.log[i];
    if !s.wroteHeader && !s.hijacked {
      assert t.log[|s.log|].TimeoutStatus?;
    }
  }

  lemma LateStatusOtherwise(s: State, step: Step)
    requires !step.Timeout?
    ensures LateStatus(Next(s, step).log) <==> LateStatus(s.log)
  {
    var t := Next(s, step);
    assert |s.log| <= |t.log| <= |s.log| + 1;
    assert forall i :: 0 <= i < |s.log| ==> t.log[i] == s.log[i];
    assert |t.log| > |s.log| ==> !t.log[|s.log|].TimeoutStatus?;
    if LateStatus(s.log) {
      var i, j :| 0 <= i < j < |s.log| && s.log[i].Flushed? && s.log[j].TimeoutStatus?;
      assert t.log[i].Flushed? && t.log[j].TimeoutStatus?;
    }
  }

  /** The shortest such run. */
  lemma FlushThenTimeout(msg: string)
    ensures OneTimeout([Flush, Timeout(msg)]) && LateStatus(Run([Flush, Timeout(msg)]).log)
  {
    var steps := [Flush, Timeout(msg)];
    assert steps[..1] == [Flush];
    assert steps[1].Timeout? && Quiet(steps[..1]) && steps[..1][0].Flush?;
    LateStatusIff(steps);
  }

  // ---- What gets through ----

  /** The events of a log that satisfy `keep`, in order. */
  function Only(log: seq<Event>, keep: Event -> bool): seq<Event> {
    if log == [] then []
    else Only(log[..|log| - 1], keep) + if keep(log[|log| - 1]) then [log[|log| - 1]] else []
  }

  /** After this step nothing that the handler writes is passed on. */
  predicate Closes(step: Step) { step.Timeout? || step == Hijack(true) }

  /** The steps before the first timeout or successful hijack. */
  function Open(steps: seq<Step>): (open: seq<Step>)
    ensures open <= steps && (forall i :: 0 <= i < |open| ==> !Closes(open[i]))
    ensures |open| < |steps| ==> Closes(steps[|open|])
  {
    if steps == [] then []
    else
      var front, last := steps[..|steps| - 1], steps[|steps| - 1];
      if |Open(front)| < |front| || Closes(last) then Open(front) else steps
  }

  /** The handler has sent something already. */
  predicate Spoke(steps: seq<Step>) { exists i :: 0 <= i < |steps| && (steps[i].Write? || steps[i].WriteHeader?) }

  /** The code of the first `WriteHeader`, unless a `Write` precedes it. */
  function Header(steps: seq<Step>): seq<Event> {
    if steps == [] then []
    else
      var front, last := steps[..|steps| - 1], steps[|steps| - 1];
      if last.WriteHeader? && !Spoke(front) then [HandlerStatus(last.code)] else Header(front)
  }

  /** The data of every `Write`, in order. */
  function Bodies(steps: seq<Step>): seq<Event> {
    if steps == [] then []
    else
      var front, last := steps[..|steps| - 1], steps[|steps| - 1];
      Bodies(front) + if last.Write? then [HandlerBody(last.data)] else []
  }

  lemma OnlyAppend(log: seq<Event>, e: Event, keep: Event -> bool)
    ensures Only(log + [e], keep) == if keep(e) then Only(log, keep) + [e] else Only(log, keep)
  {
    assert (log + [e])[..|log|] == log;
  }

  /** The flags say whether the writer is still open and whether the handler has spoken. */
  lemma {:induction false} FlagsMean(steps: seq<Step>)
    ensures Run(steps).timedOut || Run(steps).hijacked <==> Open(steps) != steps
    ensures Open(steps) == steps ==> (Run(steps).wroteHeader <==> Spoke(steps))
  {
    if steps != [] {
      var front, last := steps[..|steps| - 1], steps[|steps| - 1];
      FlagsMean(front);
      assert steps == front + [last];
      SpokeAppend(front, last);
    }
  }

  lemma SpokeAppend(front: seq<Step>, last: Step)
    ensures Spoke(front + [last]) <==> Spoke(front) || last.Write? || last.WriteHeader?
  {
    var steps := front + [last];
    assert steps[|front|] == last;
    if Spoke(front) {
      var i :| 0 <= i < |front| && (front[i].Write? || front[i].WriteHeader?);
      assert steps[i] == front[i];
    }
  }

  lemma {:induction false} SilentSaysNothing(steps: seq<Step>)
    requires !Spoke(steps)
    ensures Header(steps) == [] && Bodies(steps) == []
  {
    if steps != [] {
      var front, last := steps[..|steps| - 1], steps[|steps| - 1];
      assert steps == front + [last];
      SpokeAppend(front, last);
      SilentSaysNothing(front);
    }
  }

  /** In every interleaving, what the wrapped writer gets from the handler is what the handler sent before the first
      timeout or successful hijack: the header, if it came before all data, and then all the data. */
  lemma {:induction false} HandlerIsPassedOn(steps: seq<Step>)
    ensures Only(Run(steps).log, FromHandler) == Header(Open(steps)) + Bodies(Open(steps))
  {
    hide Only, Header, Bodies, Spoke;
    if steps == [] {
      NothingSent();
    } else {
      var front, last := steps[..|steps| - 1], steps[|steps| - 1];
      HandlerIsPassedOn(front);
      FlagsMean(front);
      assert steps == front + [last];
      if Open(front) == front && !Closes(last) {
        StepIsPassedOn(front, last);
      } else {
        StepIsNotPassedOn(Run(front), last);
      }
    }
  }

  lemma NothingSent()
    ensures Only(START.log, FromHandler) == [] && Open([]) == [] && Header([]) == [] && Bodies([]) == []
  {
  }

  lemma StepIsPassedOn(front: seq<Step>, last: Step)
    requires !Closes(last) && !Run(front).timedOut && !Run(front).hijacked && (Run(front).wroteHeader <==> Spoke(front))
    requires Only(Run(front).log, FromHandler) == Header(front) + Bodies(front)
    ensures Only(Next(Run(front), last).log, FromHandler) == Header(front + [last]) + Bodies(front + [last])
  {
    hide Only, Spoke, Run, Header, Bodies;
    var s := Run(front);
    SentLast(front, last);
    match last
    case Write(data) =>
      OnlyAppend(s.log, HandlerBody(data), FromHandler);
      assert Header(front) + (Bodies(front) + [HandlerBody(data)]) == Header(front) + Bodies(front) + [HandlerBody(data)];
    case WriteHeader(code) =>
      if !Spoke(front) { SilentSaysNothing(front); }
      OnlyAppend(s.log, HandlerStatus(code), FromHandler);
    case Flush => OnlyAppend(s.log, Flushed, FromHandler);
    case Hijack(ok) => OnlyAppend(s.log, HijackFailed, FromHandler);
  }

  lemma SentLast(front: seq<Step>, last: Step)
    ensures Header(front + [last])
            == if last.WriteHeader? && !Spoke(front) then [HandlerStatus(last.code)] else Header(front)
    ensures Bodies(front + [last]) == if last.Write? then Bodies(front) + [HandlerBody(last.data)] else Bodies(front)
  {
    hide Spoke;
    assert (front + [last])[..|front|] == front;
  }

  lemma StepIsNotPassedOn(s: State, step: Step)
    requires s.timedOut || s.hijacked || Closes(step)
    ensures Only(Next(s, step).log, FromHandler) == Only(s.log, FromHandler)
  {
    hide Only;
    match step
    case Write(data) =>
    case WriteHeader(code) =>
    case Flush => OnlyAppend(s.log, Flushed, FromHandler);
    case Hijack(ok) => OnlyAppend(s.log, if ok then Hijacked else HijackFailed, FromHandler);
    case Timeout(msg) =>
      TimeoutAddsOnly(s, msg, FromHandler);
      ResponseOnly(s, msg, FromHandler);
  }

  lemma TimeoutAddsOnly(s: State, msg: string, keep: Event -> bool)
    ensures Only(Next(s, Timeout(msg)).log, keep)
            == Only(s.log, keep) + Only(Response(s, msg), keep) + if keep(TimeoutFired) then [TimeoutFired] else []
  {
    hide Only;
    OnlyAppend(s.log + Response(s, msg), TimeoutFired, keep);
    NothingOnly(keep);
    if Response(s, msg) == [] {
      assert s.log + Response(s, msg) == s.log;
    } else {
      OnlyAppend(s.log, TimeoutStatus, keep);
      OnlyAppend(s.log + [TimeoutStatus], TimeoutBody(msg), keep);
      OnlyAppend([], TimeoutStatus, keep);
      OnlyAppend([TimeoutStatus], TimeoutBody(msg), keep);
      assert s.log + [TimeoutStatus] + [TimeoutBody(msg)] == s.log + Response(s, msg);
      assert [] + [TimeoutStatus] == [TimeoutStatus] && [TimeoutStatus] + [TimeoutBody(msg)] == Response(s, msg);
    }
  }

  lemma NothingOnly(keep: Event -> bool)
    ensures Only([], keep) == []
  {
  }

  /** With one timeout, the client gets its status and message exactly when it fires on a handler that has neither sent
      anything nor taken the connection over. */
  lemma {:induction false} TimeoutSpeaksIff(steps: seq<Step>, k: nat)
    requires OneTimeout(steps) && k < |steps| && steps[k].Timeout?
    ensures Only(Run(steps).log, FromTimeout)
            == if Quiet(steps[..k]) then [TimeoutStatus, TimeoutBody(steps[k].msg)] else []
  {
    hide Only, Quiet;
    var front, last := steps[..|steps| - 1], steps[|steps| - 1];
    if k == |steps| - 1 {
      SilentWithoutTimeout(front);
      FlagsBeforeTimeout(front);
      TimeoutAddsOnly(Run(front), last.msg, FromTimeout);
      ResponseOnly(Run(front), last.msg, FromTimeout);
    } else {
      TimeoutSpeaksIff(front, k);
      assert front[..k] == steps[..k];
      NotFromTimeout(Run(front), last);
    }
  }

  lemma ResponseOnly(s: State, msg: string, keep: Event -> bool)
    requires keep(TimeoutStatus) == keep(TimeoutBody(msg))
    ensures Only(Response(s, msg), keep) == if keep(TimeoutStatus) then Response(s, msg) else []
  {
    OnlyAppend([], TimeoutStatus, keep);
    OnlyAppend([TimeoutStatus], TimeoutBody(msg), keep);
    assert [] + [TimeoutStatus] == [TimeoutStatus];
    assert [TimeoutStatus] + [TimeoutBody(msg)] == [TimeoutStatus, TimeoutBody(msg)];
  }

  lemma NotFromTimeout(s: State, step: Step)
    requires !step.Timeout?
    ensures Only(Next(s, step).log, FromTimeout) == Only(s.log, FromTimeout)
  {
    hide Only;
    var t := Next(s, step);
    if t.log != s.log {
      assert t.log == s.log + [t.log[|s.log|]];
      OnlyAppend(s.log, t.log[|s.log|], FromTimeout);
    }
  }

  /** Without a timeout the client gets no word of one. */
  lemma {:induction false} SilentWithoutTimeout(steps: seq<Step>)
    requires !HasTimeout(steps)
    ensures Only(Run(steps).log, FromTimeout) == []
  {
    if steps != [] {
      var n := |steps| - 1;
      assert forall i :: 0 <= i < n ==> steps[..n][i] == steps[i];
      SilentWithoutTimeout(steps[..n]);
      NotFromTimeout(Run(steps[..n]), steps[n]);
    }
  }

  // ---- Flushes and hijacks ----

  predicate Unspoken(e: Event) { !FromHandler(e) && !FromTimeout(e) }

  /** Every flush, every hijack before a timeout with its outcome, and every timeout. */
  function Controls(steps: seq<Step>): seq<Event> {
    if steps == [] then []
    else
      var front, last := steps[..|steps| - 1], steps[|steps| - 1];
      Controls(front) +
      match last
      case Flush => [Flushed]
      case Hijack(ok) => if HasTimeout(front) then [] else if ok then [Hijacked] else [HijackFailed]
      case Timeout(_) => [TimeoutFired]
      case _ => []
  }

  /** These reach the wrapped writer in every interleaving, and in order. */
  lemma {:induction false} ControlsArePassedOn(steps: seq<Step>)
    ensures Only(Run(steps).log, Unspoken) == Controls(steps) && (Run(steps).timedOut <==> HasTimeout(steps))
  {
    hide Only;
    if steps == [] {
      NothingOnly(Unspoken);
    } else {
      var front, last, s := steps[..|steps| - 1], steps[|steps| - 1], Run(steps[..|steps| - 1]);
      ControlsArePassedOn(front);
      HasTimeoutLast(steps);
      hide HasTimeout;
      match last
      case Write(data) => OnlyAppend(s.log, HandlerBody(data), Unspoken);
      case WriteHeader(code) => OnlyAppend(s.log, HandlerStatus(code), Unspoken);
      case Flush => OnlyAppend(s.log, Flushed, Unspoken);
      case Hijack(ok) => OnlyAppend(s.log, if ok then Hijacked else HijackFailed, Unspoken);
      case Timeout(msg) =>
        TimeoutAddsOnly(s, msg, Unspoken);
        ResponseOnly(s, msg, Unspoken);
    }
  }

  lemma HasTimeoutLast(steps: seq<Step>)
    requires steps != []
    ensures HasTimeout(steps) <==> HasTimeout(steps[..|steps| - 1]) || steps[|steps| - 1].Timeout?
  {
    var front := steps[..|steps| - 1];
    if HasTimeout(front) {
      var i :| 0 <= i < |front| && front[i].Timeout?;
      assert steps[i].Timeout?;
    }
    if HasTimeout(steps) && !steps[|steps| - 1].Timeout? {
      var i :| 0 <= i < |steps| && steps[i].Timeout?;
      assert front[i] == steps[i];
    }
  }
}
