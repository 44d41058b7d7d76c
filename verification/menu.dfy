/** The terminal menu: a list of choices, a cursor that wraps at both ends,
    and two flags that record whether the user picked a choice or quit.
    Rendering is not part of the model; only the state and its transitions
    are. */
module Menu {

  datatype Choice = Choice(display: string, command: string, icon: string)

  datatype Model = Model(
    choices: seq<Choice>,
    cursor: int,
    selected: bool,
    quitting: bool,
    width: int,
    height: int)

  /** The keys the menu reacts to; every other key is `OtherKey`. */
  datatype Key = Enter | Up | CtrlK | Down | CtrlJ | CtrlC | Esc | CtrlQ | OtherKey

  /** The messages the menu receives: a terminal resize, a key press, or
      anything else. */
  datatype Msg = WindowSize(w: int, h: int) | KeyPress(key: Key) | OtherMsg

  /** The result of `Update`: the next state and whether it asks the program
      to quit. */
  datatype Step = Step(model: Model, quit: bool)

  /** The commands of the main menu, in menu order. */
  const MenuCommands: seq<string> :=
    ["backup", "chat", "search", "stats", "auth-status", "models-status", "exit"]

  /** The cursor points at one of the choices. */
  predicate InRange(m: Model)
  {
    0 <= m.cursor < |m.choices|
  }

  /** `InitialModel`: seven choices, the cursor on the first, nothing picked,
      an 80x24 terminal. */
  function InitialModel(): (r: Model)
    ensures |r.choices| == 7 && InRange(r) && r.cursor == 0
    ensures !r.selected && !r.quitting
    ensures r.width == 80 && r.height == 24
    ensures forall i :: 0 <= i < |r.choices| ==> r.choices[i].command == MenuCommands[i]
  {
    Model(
      [ Choice("BACKUP LIBRARY", "backup", "▶"),
        Choice("AI CHAT TERMINAL", "chat", "◉"),
        Choice("SEARCH MUSIC DB", "search", "◈"),
        Choice("STATISTICS CORE", "stats", "◆"),
        Choice("AUTH STATUS", "auth-status", "◇"),
        Choice("MODELS REGISTRY", "models-status", "◐"),
        Choice("EXIT SYSTEM", "exit", "◁") ],
      0, false, false, 80, 24)
  }

  /** The cursor moved one place up, wrapping from the top to the bottom. */
  function CursorUp(m: Model): (r: int)
    ensures InRange(m) ==> 0 <= r < |m.choices|
    ensures InRange(m) && m.cursor > 0 ==> r == m.cursor - 1
    ensures m.cursor <= 0 ==> r == |m.choices| - 1
  {
    if m.cursor > 0 then m.cursor - 1 else |m.choices| - 1
  }

  /** The cursor moved one place down, wrapping from the bottom to the top. */
  function CursorDown(m: Model): (r: int)
    ensures InRange(m) ==> 0 <= r < |m.choices|
    ensures InRange(m) ==> r == (m.cursor + 1) % |m.choices|
    ensures m.cursor >= |m.choices| - 1 ==> r == 0
  {
    if m.cursor < |m.choices| - 1 then m.cursor + 1 else 0
  }

  /** `Update`: a resize records the new size; Enter picks the choice under
      the cursor and quits; Up/Ctrl-K and Down/Ctrl-J move the cursor;
      Ctrl-C, Esc and Ctrl-Q quit without picking; everything else leaves
      the state as it is. */
  function Update(m: Model, msg: Msg): (r: Step)
    ensures r.model.choices == m.choices
    ensures InRange(m) ==> InRange(r.model)
    ensures r.quit <==> msg.KeyPress? && msg.key in {Enter, CtrlC, Esc, CtrlQ}
    ensures r.model.selected <==> m.selected || msg == KeyPress(Enter)
    ensures r.model.quitting <==> m.quitting || (msg.KeyPress? && msg.key in {CtrlC, Esc, CtrlQ})
    ensures msg.WindowSize? ==> r.model == m.(width := msg.w, height := msg.h)
    ensures !msg.WindowSize? ==> r.model.width == m.width && r.model.height == m.height
    ensures r.model.cursor != m.cursor ==> msg.KeyPress? && msg.key in {Up, CtrlK, Down, CtrlJ}
  {
    match msg
    case WindowSize(w, h) => Step(m.(width := w, height := h), false)
    case KeyPress(k) =>
      (match k
      case Enter => Step(m.(selected := true), true)
      case Up => Step(m.(cursor := CursorUp(m)), false)
      case CtrlK => Step(m.(cursor := CursorUp(m)), false)
      case Down => Step(m.(cursor := CursorDown(m)), false)
      case CtrlJ => Step(m.(cursor := CursorDown(m)), false)
      case CtrlC => Step(m.(quitting := true), true)
      case Esc => Step(m.(quitting := true), true)
      case CtrlQ => Step(m.(quitting := true), true)
      case OtherKey => Step(m, false))
    case OtherMsg => Step(m, false)
  }

  /** The state after a sequence of messages. */
  function Run(m: Model, msgs: seq<Msg>): (r: Model)
    ensures r.choices == m.choices
    ensures InRange(m) ==> InRange(r)
    ensures m.quitting ==> r.quitting
    ensures m.selected ==> r.selected
    decreases |msgs|
  {
    if |msgs| == 0 then m else Run(Update(m, msgs[0]).model, msgs[1..])
  }

  /** `n` presses of Down. */
  function Downs(n: nat): (r: seq<Msg>)
    ensures |r| == n
  {
    if n == 0 then [] else [KeyPress(Down)] + Downs(n - 1)
  }

  /** `SetCursor`: moves the cursor to `pos` when that is a choice, and
      otherwise does nothing. */
  function SetCursor(m: Model, pos: int): (r: Model)
    ensures 0 <= pos < |m.choices| ==> r == m.(cursor := pos)
    ensures !(0 <= pos < |m.choices|) ==> r == m
  {
    if 0 <= pos < |m.choices| then m.(cursor := pos) else m
  }

  /** `GetSelectedCommand`: the command under the cursor once a choice was
      picked and the user did not quit, "" otherwise. */
  function GetSelectedCommand(m: Model): (r: string)
    ensures m.selected && !m.quitting && InRange(m) ==> r == m.choices[m.cursor].command
    ensures !m.selected || m.quitting || !InRange(m) ==> r == ""
  {
    if !m.selected || m.quitting then ""
    else if 0 <= m.cursor < |m.choices| then m.choices[m.cursor].command
    else ""
  }

  /** `GetSelectedDisplay`: the label under the cursor, picked or not, ""
      for a cursor outside the choices. */
  function GetSelectedDisplay(m: Model): (r: string)
    ensures InRange(m) ==> r == m.choices[m.cursor].display
    ensures !InRange(m) ==> r == ""
  {
    if 0 <= m.cursor < |m.choices| then m.choices[m.cursor].display else ""
  }

  /** `k` presses of Down move an in-range cursor `k` places forward while
      that stays on the menu, and change nothing else. */
  lemma {:induction false} DownsAdvance(m: Model, k: nat)
    requires InRange(m) && m.cursor + k < |m.choices|
    ensures Run(m, Downs(k)) == m.(cursor := m.cursor + k)
    decreases k
  {
    if k > 0 {
      var next := Update(m, KeyPress(Down)).model;
      assert Downs(k)[0] == KeyPress(Down) && Downs(k)[1..] == Downs(k - 1);
      assert next == m.(cursor := m.cursor + 1);
      DownsAdvance(next, k - 1);
    }
  }

  /** Past the last choice the cursor carries on from the first: `k` presses
      of Down, at most one round, move it `k` places forward counting
      round. */
  lemma {:induction false} DownsWrap(m: Model, k: nat)
    requires InRange(m) && |m.choices| <= m.cursor + k && k <= |m.choices|
    ensures Run(m, Downs(k)) == m.(cursor := m.cursor + k - |m.choices|)
    decreases k
  {
    var next := Update(m, KeyPress(Down)).model;
    assert Downs(k)[0] == KeyPress(Down) && Downs(k)[1..] == Downs(k - 1);
    if m.cursor == |m.choices| - 1 {
      assert next == m.(cursor := 0);
      DownsAdvance(next, k - 1);
    } else {
      assert next == m.(cursor := m.cursor + 1);
      DownsWrap(next, k - 1);
    }
  }

  /** As many presses of Down as there are choices bring the cursor back
      to where it started. */
  lemma FullCircle(m: Model)
    requires InRange(m)
    ensures Run(m, Downs(|m.choices|)) == m
  {
    DownsWrap(m, |m.choices|);
  }

  /** Down followed by Up, and Up followed by Down, leave an in-range state
      as it was, whichever of the two keys of each pair is pressed. */
  lemma UpUndoesDown(m: Model, down: Key, up: Key)
    requires InRange(m)
    requires down in {Down, CtrlJ} && up in {Up, CtrlK}
    ensures Update(Update(m, KeyPress(down)).model, KeyPress(up)).model == m
    ensures Update(Update(m, KeyPress(up)).model, KeyPress(down)).model == m
  {
  }

  /** Pressing Enter on an in-range menu the user did not quit yields the
      command under the cursor; once the user quits no later message
      yields a command. */
  lemma EnterPicksCursor(m: Model, later: seq<Msg>)
    requires InRange(m) && !m.quitting
    ensures GetSelectedCommand(Update(m, KeyPress(Enter)).model) == m.choices[m.cursor].command
    ensures GetSelectedCommand(Run(Update(m, KeyPress(Esc)).model, later)) == ""
  {
  }

  /** From the start, `k` presses of Down and then Enter pick the command
      `k` places down the menu. */
  lemma InitialPick(k: nat)
    requires k < 7
    ensures GetSelectedCommand(Update(Run(InitialModel(), Downs(k)), KeyPress(Enter)).model)
      == MenuCommands[k]
  {
    DownsAdvance(InitialModel(), k);
  }
}
