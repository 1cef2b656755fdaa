/** The controller inside the Bubble Tea runtime. The runtime feeds the
    terminal's messages to `Update` and runs the commands it returns; a fetch
    started by `StartFetch` later comes back as exactly one `gotFortune`
    message. The model counts the fetches that have been started and not yet
    delivered, so that statements about "the outstanding fetch" can be proved
    over arbitrary interleavings of key presses, ticks and completions. */
module Runtime {
  import opened Wrappers
  import opened Fortune

  /** The controller's model and the number of fetches in flight. */
  datatype Sys = Sys(m: Model, pending: nat)

  /** What can happen next: the terminal or a timer delivers a message, or a
      fetch in flight completes with an error or a date. */
  datatype Event =
    | Deliver(msg: Msg)
    | Complete(err: Option<Error>, date: string)

  /** One event. Only fetches produce `gotFortune`, so a delivered message of
      that kind is not one the terminal can send and changes nothing; a
      completion with no fetch in flight cannot happen and changes nothing. */
  function SysStep(s: Sys, e: Event, w: Widgets): (r: Sys)
    ensures e.Deliver? && e.msg.GotFortune? ==> r == s
    ensures e.Deliver? && !e.msg.GotFortune? ==>
      && r.m == Update(s.m, e.msg, w).model
      && r.pending == (if Update(s.m, e.msg, w).cmd.StartFetch? then s.pending + 1 else s.pending)
    ensures e.Complete? && s.pending == 0 ==> r == s
    ensures e.Complete? && s.pending > 0 ==>
      r == Sys(Update(s.m, GotFortune(e.err, e.date), w).model, s.pending - 1)
  {
    match e
    case Deliver(msg) =>
      if msg.GotFortune? then s
      else
        var st := Update(s.m, msg, w);
        Sys(st.model, s.pending + if st.cmd.StartFetch? then 1 else 0)
    case Complete(err, date) =>
      if s.pending == 0 then s
      else Sys(Update(s.m, GotFortune(err, date), w).model, s.pending - 1)
  }

  function SysRun(s: Sys, es: seq<Event>, w: Widgets): Sys
    decreases |es|
  {
    if es == [] then s else SysRun(SysStep(s, es[0], w), es[1..], w)
  }

  function Start(input: TextInput, spinner: Spinner): Sys {
    Sys(Init(input, spinner), 0)
  }

  /** A fetch is in flight exactly while loading, there is never more than one,
      the prompt and spinner are exclusive, and no error is held while typing
      or loading. */
  predicate SysInv(s: Sys) {
    && s.pending == (if s.m.loading then 1 else 0)
    && Inv(s.m)
    && (s.m.typing || s.m.loading ==> s.m.err == None)
  }

  lemma SysStepKeepsInv(s: Sys, e: Event, w: Widgets)
    requires SysInv(s)
    ensures SysInv(SysStep(s, e, w))
  {
    match e
    case Deliver(msg) =>
      if !msg.GotFortune? {
        var st := Update(s.m, msg, w);
        if st.cmd.StartFetch? {
          assert !s.m.loading;
        }
      }
    case Complete(err, date) =>
  }

  lemma {:induction false} SysRunKeepsInv(s: Sys, es: seq<Event>, w: Widgets)
    requires SysInv(s)
    ensures SysInv(SysRun(s, es, w))
    decreases |es|
  {
    if es != [] {
      SysStepKeepsInv(s, es[0], w);
      SysRunKeepsInv(SysStep(s, es[0], w), es[1..], w);
    }
  }

  /** From program start, after any events: at most one fetch is in flight, and
      one is in flight exactly while the spinner is shown. */
  lemma AtMostOneFetch(input: TextInput, spinner: Spinner, es: seq<Event>, w: Widgets)
    ensures SysRun(Start(input, spinner), es, w).pending <= 1
    ensures View(SysRun(Start(input, spinner), es, w).m).Waiting?
        <==> SysRun(Start(input, spinner), es, w).pending == 1
  {
    SysRunKeepsInv(Start(input, spinner), es, w);
  }

  /** While a fetch is in flight no message starts another one. */
  lemma NoSecondFetch(s: Sys, msg: Msg, w: Widgets)
    requires SysInv(s) && s.pending == 1
    ensures !Update(s.m, msg, w).cmd.StartFetch?
  {
  }

  /** Completing the fetch in flight shows the payload on success and the error
      on failure, with phase Done or Failed respectively. */
  lemma CompletionShowsResult(s: Sys, err: Option<Error>, date: string, w: Widgets)
    requires SysInv(s) && s.pending == 1
    ensures var s' := SysStep(s, Complete(err, date), w);
      && s'.pending == 0
      && View(s'.m) == (if err.Some? then Failure(err.value) else Success(date))
      && (err.None? ==> s'.m.err == None)
  {
  }

  /** Ticks while a fetch is in flight keep the spinner and leave the error and
      the date as they were. */
  lemma {:induction false} TicksKeepWaiting(s: Sys, n: nat, w: Widgets)
    requires SysInv(s) && s.pending == 1
    ensures var s' := SysRun(s, seq(n, _ => Deliver(Tick)), w);
      && s'.pending == 1 && s'.m.loading && !s'.m.typing
      && s'.m.err == s.m.err && s'.m.date == s.m.date && s'.m.input == s.m.input
    decreases n
  {
    if n > 0 {
      var s1 := SysStep(s, Deliver(Tick), w);
      assert seq(n, _ => Deliver(Tick))[0] == Deliver(Tick);
      assert seq(n, _ => Deliver(Tick))[1..] == seq(n - 1, _ => Deliver(Tick));
      TicksKeepWaiting(s1, n - 1, w);
    }
  }

  // ---------------------------------------------------------------------------
  // Scenarios

  /** A date is submitted, and the fetch returns a fortune. */
  lemma SubmitThenSuccess(input: TextInput, spinner: Spinner, payload: string, w: Widgets)
    requires !Text.AllSpace(input.value)
    ensures var s1 := SysStep(Start(input, spinner), Deliver(Key(Enter)), w);
      var s2 := SysStep(s1, Complete(None, payload), w);
      && s1.pending == 1 && View(s1.m).Waiting?
      && s2.pending == 0 && View(s2.m) == Success(payload)
  {
    var s1 := SysStep(Start(input, spinner), Deliver(Key(Enter)), w);
    assert SysInv(s1);
    CompletionShowsResult(s1, None, payload, w);
  }

  lemma ScenarioSuccess(cursor: nat, spinner: Spinner, w: Widgets)
    ensures var s1 := SysStep(Start(TextInput("20240101", cursor), spinner), Deliver(Key(Enter)), w);
      var s2 := SysStep(s1, Complete(None, "good fortune"), w);
      View(s1.m).Waiting? && View(s2.m) == Success("good fortune")
  {
    var input := TextInput("20240101", cursor);
    assert !Text.IsSpace(input.value[0]);
    SubmitThenSuccess(input, spinner, "good fortune", w);
  }

  /** A blank buffer is submitted: nothing is fetched and the prompt stays. */
  lemma ScenarioBlank(cursor: nat, spinner: Spinner, w: Widgets)
    ensures var s1 := SysStep(Start(TextInput("   ", cursor), spinner), Deliver(Key(Enter)), w);
      s1.pending == 0 && View(s1.m).Prompt?
  {
    assert Text.AllSpace("   ");
  }

  /** A fetch fails, then esc brings back the prompt with the old text and
      without the error. */
  lemma ScenarioFailureThenReset(input: TextInput, spinner: Spinner, w: Widgets)
    requires !Text.AllSpace(input.value)
    ensures var s1 := SysStep(Start(input, spinner), Deliver(Key(Enter)), w);
      var s2 := SysStep(s1, Complete(Some(Error("network unreachable")), ""), w);
      var s3 := SysStep(s2, Deliver(Key(Esc)), w);
      && View(s2.m) == Failure(Error("network unreachable"))
      && View(s3.m) == Prompt(input)
      && s3.m.err == None && s3.pending == 0
  {
  }
}
