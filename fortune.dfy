/** The interaction state machine of cmd/fortune.go: the `model` record, the
    messages it receives, the commands it returns, `Update` and `View`.

    The text-input and spinner widgets are foreign code. The model keeps the
    text input's value and cursor and an opaque spinner state, and lets
    arbitrary functions (`Widgets`) stand for the widgets' own update functions,
    so every property below holds whatever those functions do to that state. */
module Fortune {
  import opened Wrappers
  import opened Text

  /** A Go `error` value; `View` prints its message with `%v`. */
  datatype Error = Error(message: string)

  /** The text-input widget's state: the value `Value()` returns and the cursor
      position that editing keys act on. */
  datatype TextInput = TextInput(value: string, cursor: nat)

  /** The spinner widget's state, opaque here. */
  datatype Spinner = Spinner(frame: nat)

  /** The `model` record: the text input, the spinner, the two
      phase flags, the last error and the last fetched date. */
  datatype Model = Model(
    input: TextInput,
    spinner: Spinner,
    typing: bool,
    loading: bool,
    err: Option<Error>,
    date: string)

  /** Messages: a key press named as `msg.String()` names it, a spinner tick,
      the `gotFortune` completion of a fetch, and any other message (cursor
      blink, window size, ...). */
  datatype Msg =
    | Key(name: string)
    | Tick
    | GotFortune(err: Option<Error>, date: string)
    | OtherMsg

  /** Commands handed back to the runtime. `StartFetch(q)` is
      `tea.Batch(spinner.Tick, fetchFortune(q))`: one spinner tick and one fetch
      of `q`. `InputCmd` and `SpinnerCmd` are whatever command the text input or
      the spinner returned from its own update. `NoCmd` is `nil`. */
  datatype Cmd = NoCmd | Quit | StartFetch(query: string) | InputCmd | SpinnerCmd

  datatype Step = Step(model: Model, cmd: Cmd)

  /** The widgets' update functions. */
  datatype Widgets = Widgets(
    editInput: (TextInput, Msg) -> TextInput,
    stepSpinner: (Spinner, Msg) -> Spinner)

  const CtrlC: string := "ctrl+c"
  const Enter: string := "enter"
  const Esc: string := "esc"

  /** The model `main` starts the program with: typing, not loading, no error,
      no date yet. The text input as `main` prepares it (holding today's date in
      the source) is a parameter. */
  function Init(input: TextInput, spinner: Spinner): (m: Model)
    ensures m.typing && !m.loading && m.err == None
    ensures m.input == input
  {
    Model(input, spinner, true, false, None, "")
  }

  /** The screen state invariant: the prompt and the spinner are never both active. */
  predicate Inv(m: Model) {
    !(m.typing && m.loading)
  }

  /** The tail of `Update`: the message goes to the text input while typing,
      to the spinner while loading, and is dropped otherwise. Only the active
      widget's part of the model changes; the flags, the error and the date
      never do, and the command is the active widget's. */
  function Delegate(m: Model, msg: Msg, w: Widgets): (r: Step)
    ensures r.model.typing == m.typing && r.model.loading == m.loading
    ensures r.model.err == m.err && r.model.date == m.date
    ensures r.model.input != m.input ==> m.typing
    ensures r.model.spinner != m.spinner ==> !m.typing && m.loading
    ensures !m.typing && !m.loading ==> r.model == m
    ensures r.cmd == if m.typing then InputCmd else if m.loading then SpinnerCmd else NoCmd
  {
    if m.typing then
      Step(m.(input := w.editInput(m.input, msg)), InputCmd)
    else if m.loading then
      Step(m.(spinner := w.stepSpinner(m.spinner, msg)), SpinnerCmd)
    else
      Step(m, NoCmd)
  }

  /** `model.Update`. It keeps the invariant, changes the input only while
      typing, and starts a fetch exactly when enter is pressed while typing with
      a buffer that is not blank, the fetch key being the trimmed buffer. */
  function Update(m: Model, msg: Msg, w: Widgets): (r: Step)
    ensures Inv(m) ==> Inv(r.model)
    ensures !m.typing ==> r.model.input == m.input
    ensures r.cmd.StartFetch? <==> msg == Key(Enter) && m.typing && !AllSpace(m.input.value)
    ensures r.cmd.StartFetch? ==> r.cmd.query == TrimSpace(m.input.value) && Trimmed(r.cmd.query) && r.cmd.query != []
  {
    match msg
    case Key(name) =>
      if name == CtrlC then
        Step(m, Quit)
      else if name == Enter && m.typing && TrimSpace(m.input.value) != [] then
        Step(m.(typing := false, loading := true), StartFetch(TrimSpace(m.input.value)))
      else if name == Esc && !m.typing && !m.loading then
        Step(m.(typing := true, err := None), NoCmd)
      else
        Delegate(m, msg, w)
    case GotFortune(e, d) =>
      if e.Some? then
        Step(m.(loading := false, err := e), NoCmd)
      else
        Step(m.(loading := false, date := d), NoCmd)
    case _ =>
      Delegate(m, msg, w)
  }

  // ---------------------------------------------------------------------------
  // One message at a time

  lemma CtrlCQuits(m: Model, w: Widgets)
    ensures Update(m, Key(CtrlC), w) == Step(m, Quit)
  {
  }

  /** Enter with a buffer that is not blank: the fetch starts, the flags flip,
      and the error, the date and the buffer are untouched. */
  lemma EnterSubmits(m: Model, w: Widgets)
    requires m.typing && !AllSpace(m.input.value)
    ensures Update(m, Key(Enter), w)
         == Step(m.(typing := false, loading := true), StartFetch(TrimSpace(m.input.value)))
  {
  }

  /** Enter with a blank buffer only reaches the text input. */
  lemma EnterBlankIsForwarded(m: Model, w: Widgets)
    requires m.typing && AllSpace(m.input.value)
    ensures Update(m, Key(Enter), w)
         == Step(m.(input := w.editInput(m.input, Key(Enter))), InputCmd)
  {
  }

  /** Esc on a result or failure screen returns to the prompt, clears the error
      and keeps the date and the entered text. */
  lemma EscResets(m: Model, w: Widgets)
    requires !m.typing && !m.loading
    ensures Update(m, Key(Esc), w) == Step(m.(typing := true, err := None), NoCmd)
    ensures Update(m, Key(Esc), w).model.input == m.input
  {
  }

  /** Esc while typing or loading changes neither flag. */
  lemma EscKeepsPhase(m: Model, w: Widgets)
    requires m.typing || m.loading
    ensures Update(m, Key(Esc), w).model.typing == m.typing
    ensures Update(m, Key(Esc), w).model.loading == m.loading
    ensures Update(m, Key(Esc), w).cmd == if m.typing then InputCmd else SpinnerCmd
  {
  }

  /** A completion always ends loading and never touches typing; an error is
      stored and leaves the date, a success stores the date and leaves the error. */
  lemma GotFortuneStores(m: Model, e: Option<Error>, d: string, w: Widgets)
    ensures var r := Update(m, GotFortune(e, d), w);
      && !r.model.loading && r.model.typing == m.typing && r.cmd == NoCmd
      && r.model.input == m.input && r.model.spinner == m.spinner
      && (e.Some? ==> r.model.err == e && r.model.date == m.date)
      && (e.None? ==> r.model.date == d && r.model.err == m.err)
  {
  }

  /** Every message that lines up with none of the handled cases (ctrl+c, a
      submitting enter, a resetting esc, a completion) goes to the text input
      while typing, to the spinner while loading, and is dropped otherwise.
      This covers enter and esc whenever their guards fail, such as a second
      enter while a fetch is in flight. */
  lemma UnhandledIsDelegated(m: Model, msg: Msg, w: Widgets)
    requires !msg.GotFortune?
    requires msg != Key(CtrlC)
    requires !(msg == Key(Enter) && m.typing && !AllSpace(m.input.value))
    requires !(msg == Key(Esc) && !m.typing && !m.loading)
    ensures m.typing ==> Update(m, msg, w) == Step(m.(input := w.editInput(m.input, msg)), InputCmd)
    ensures !m.typing && m.loading ==> Update(m, msg, w) == Step(m.(spinner := w.stepSpinner(m.spinner, msg)), SpinnerCmd)
    ensures !m.typing && !m.loading ==> Update(m, msg, w) == Step(m, NoCmd)
  {
  }

  // ---------------------------------------------------------------------------
  // Sequences of messages

  /** The model after the runtime has fed it `msgs` in order. */
  function Run(m: Model, msgs: seq<Msg>, w: Widgets): Model
    decreases |msgs|
  {
    if msgs == [] then m else Run(Update(m, msgs[0], w).model, msgs[1..], w)
  }

  /** A property of `Run` alone, as a left fold over the messages: running two
      batches is running the first and then the second from where it left off. */
  lemma {:induction false} RunConcat(m: Model, a: seq<Msg>, b: seq<Msg>, w: Widgets)
    ensures Run(m, a + b, w) == Run(Run(m, a, w), b, w)
    decreases |a|
  {
    if a == [] {
      assert a + b == b;
    } else {
      assert (a + b)[0] == a[0] && (a + b)[1..] == a[1..] + b;
      RunConcat(Update(m, a[0], w).model, a[1..], b, w);
    }
  }

  lemma {:induction false} RunKeepsInv(m: Model, msgs: seq<Msg>, w: Widgets)
    requires Inv(m)
    ensures Inv(Run(m, msgs, w))
    decreases |msgs|
  {
    if msgs != [] {
      RunKeepsInv(Update(m, msgs[0], w).model, msgs[1..], w);
    }
  }

  /** From the initial model, no sequence of messages whatsoever shows the prompt
      and the spinner at once. */
  lemma NeverTypingAndLoading(input: TextInput, spinner: Spinner, msgs: seq<Msg>, w: Widgets)
    ensures !(Run(Init(input, spinner), msgs, w).typing && Run(Init(input, spinner), msgs, w).loading)
  {
    RunKeepsInv(Init(input, spinner), msgs, w);
  }

  /** Once the prompt is left, nothing but esc brings it back, and until then the
      entered text stays as it was. */
  lemma {:induction false} InputFrozenUntilEsc(m: Model, msgs: seq<Msg>, w: Widgets)
    requires !m.typing
    requires forall i :: 0 <= i < |msgs| ==> msgs[i] != Key(Esc)
    ensures !Run(m, msgs, w).typing
    ensures Run(m, msgs, w).input == m.input
    decreases |msgs|
  {
    if msgs != [] {
      var m' := Update(m, msgs[0], w).model;
      assert msgs[0] != Key(Esc);
      assert forall i :: 0 <= i < |msgs[1..]| ==> msgs[1..][i] == msgs[i + 1];
      InputFrozenUntilEsc(m', msgs[1..], w);
    }
  }

  /** Submit, any number of messages other than esc, then esc: the entered text
      is the one that was submitted; the prompt is back exactly when the fetch
      had completed, and then without an error. */
  lemma ResubmitKeepsBuffer(m: Model, msgs: seq<Msg>, w: Widgets)
    requires m.typing && !AllSpace(m.input.value)
    requires forall i :: 0 <= i < |msgs| ==> msgs[i] != Key(Esc)
    ensures var s := Update(m, Key(Enter), w);
      var before := Run(s.model, msgs, w);
      var after := Update(before, Key(Esc), w).model;
      && s.cmd == StartFetch(TrimSpace(m.input.value))
      && after.input == m.input
      && (after.typing <==> !before.loading)
      && (after.typing ==> after.err == None)
  {
    var s := Update(m, Key(Enter), w);
    InputFrozenUntilEsc(s.model, msgs, w);
  }

  // ---------------------------------------------------------------------------
  // Rendering

  /** Which of the four screens `View` shows and what it embeds: the prompt
      with the text input, the spinner with the waiting text, the failure text
      with the error, or the success banner with the date. */
  datatype Screen =
    | Prompt(input: TextInput)
    | Waiting(spinner: Spinner)
    | Failure(err: Error)
    | Success(date: string)

  /** `model.View`: typing first, then loading, then an error, then success. */
  function View(m: Model): (r: Screen)
    ensures r.Prompt? <==> m.typing
    ensures r.Waiting? <==> !m.typing && m.loading
    ensures r.Failure? <==> !m.typing && !m.loading && m.err.Some?
    ensures r.Success? <==> !m.typing && !m.loading && m.err.None?
    ensures r.Prompt? ==> r.input == m.input
    ensures r.Waiting? ==> r.spinner == m.spinner
    ensures r.Failure? ==> m.err == Some(r.err)
    ensures r.Success? ==> r.date == m.date
  {
    if m.typing then Prompt(m.input)
    else if m.loading then Waiting(m.spinner)
    else if m.err.Some? then Failure(m.err.value)
    else Success(m.date)
  }

  /** Under the invariant the spinner shows exactly while loading. */
  lemma ViewWaitingIffLoading(m: Model)
    requires Inv(m)
    ensures View(m).Waiting? <==> m.loading
  {
  }
}
