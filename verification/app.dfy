/** The calculator's application state and the user actions that change it:
    choosing a mode, calculating, clearing the history, and the two ways of
    pre-filling the input fields. Each action is a pure transition from one
    state to the next. */
module App {
  import opened Wrappers
  import opened Rounding
  import opened Proportion
  import opened History

  /** The current mode, the in-memory history (newest first) and the
      storage entry it is mirrored to. */
  datatype AppState = AppState(mode: Mode, history: seq<Calculation>, store: Store)

  /** What a calculation leaves behind: the next state and the value shown
      in the result field (`None` when the field is cleared). */
  datatype Outcome = Outcome(state: AppState, shown: Option<real>)

  /** The in-memory history is what the storage entry would load as. */
  predicate Mirrors(s: AppState)
  {
    Load(s.store) == s.history
  }

  /** The invariants every action keeps: at most five entries, mirrored to storage. */
  predicate Inv(s: AppState)
  {
    |s.history| <= MaxEntries && Mirrors(s)
  }

  /** The state at page load: direct mode, and the history read from storage. */
  function Init(st: Store): (s: AppState)
    ensures s.mode == Direct
    ensures s.store == st && s.history == Load(st)
    ensures Mirrors(s)
    ensures |Load(st)| <= MaxEntries ==> Inv(s)
    ensures st.None? ==> s.history == []
  {
    AppState(Direct, Load(st), st)
  }

  /** Selecting a mode changes the mode and nothing else. */
  function SetMode(s: AppState, m: Mode): (r: AppState)
    ensures r.mode == m
    ensures r.history == s.history && r.store == s.store
  {
    s.(mode := m)
  }

  /** Pressing "calculate" with the parsed field values `a`, `b`, `c`
      (`None` where the field did not hold a number) at time `timestamp`. */
  function Calculate(s: AppState, a: Option<real>, b: Option<real>, c: Option<real>,
                     timestamp: string): (r: Outcome)
    ensures r.shown.None? <==> !Accepts(a, b, c)
    ensures r.shown.None? ==> r.state == s
    ensures r.shown.Some? ==>
      && r.state.mode == s.mode
      && r.state.history
         == Push(s.history, Calculation(s.mode, a.value, b.value, c.value, r.shown.value,
                                        FormulaText(s.mode), timestamp))
      && r.state.store == Some(r.state.history)
    ensures r.shown.Some? ==>
      forall x :: Proportional(s.mode, a.value, b.value, c.value, x) ==> r.shown.value == Round2(x)
  {
    if !Accepts(a, b, c) then
      Outcome(s, None)
    else
      var x := Solve(s.mode, a.value, b.value, c.value);
      var shown := Round2(x);
      var rec := Calculation(s.mode, a.value, b.value, c.value, shown, FormulaText(s.mode), timestamp);
      var h := Push(s.history, rec);
      assert forall y :: Proportional(s.mode, a.value, b.value, c.value, y) ==> y == x by {
        forall y | Proportional(s.mode, a.value, b.value, c.value, y)
          ensures y == x
        {
          SolveUnique(s.mode, a.value, b.value, c.value, y);
        }
      }
      Outcome(AppState(s.mode, h, Save(h)), Some(shown))
  }

  /** Pressing "clear history": with confirmation the history and its storage
      entry are removed; without it nothing happens. */
  function ClearHistory(s: AppState, confirmed: bool): (r: AppState)
    ensures r.mode == s.mode
    ensures confirmed ==> r.history == [] && r.store.None?
    ensures !confirmed ==> r == s
  {
    if confirmed then AppState(s.mode, [], None) else s
  }

  /** The inputs of the newest calculation, used to pre-fill the fields at
      page load; `None` when the history is empty. */
  function LoadLastExample(s: AppState): (r: Option<Triple>)
    ensures r.Some? <==> |s.history| > 0
    ensures r.Some? ==>
      r.value == Triple(s.history[0].a, s.history[0].b, s.history[0].c)
  {
    if |s.history| > 0 then
      var last := s.history[0];
      Some(Triple(last.a, last.b, last.c))
    else
      None
  }

  /** Pressing "example": a thin wrapper that picks the worked example of
      the mode currently selected in the state. */
  function LoadExample(s: AppState): (t: Triple)
    ensures t == Example(s.mode)
    ensures Accepts(Some(t.a), Some(t.b), Some(t.c))
  {
    Example(s.mode)
  }

  /** A successful calculation keeps the history within five entries and mirrored to storage. */
  lemma CalculateKeepsInv(s: AppState, a: Option<real>, b: Option<real>, c: Option<real>,
                          timestamp: string)
    requires Inv(s)
    ensures Inv(Calculate(s, a, b, c, timestamp).state)
  {
  }

  /** The record a successful calculation stores: it sits at the front, carries
      the current mode and the inputs exactly as given, and only its result
      is rounded. The older entries follow in their old order; a full history
      loses its oldest entry, a shorter one grows by one. */
  lemma CalculateRecord(s: AppState, a: Option<real>, b: Option<real>, c: Option<real>,
                        timestamp: string)
    requires Accepts(a, b, c)
    ensures var r := Calculate(s, a, b, c, timestamp);
      && r.shown == Some(Round2(Solve(s.mode, a.value, b.value, c.value)))
      && |r.state.history| > 0
      && r.state.history[0].mode == s.mode
      && r.state.history[0].a == a.value
      && r.state.history[0].b == b.value
      && r.state.history[0].c == c.value
      && r.state.history[0].x == r.shown.value
      && r.state.history[0].timestamp == timestamp
      && r.state.history[1..] <= s.history
      && (|s.history| < MaxEntries ==> |r.state.history| == |s.history| + 1)
      && (|s.history| == MaxEntries ==> r.state.history[1..] == s.history[..MaxEntries - 1])
  {
  }

  /** Pre-filling after a calculation gives back exactly the inputs of that calculation. */
  lemma LastAfterCalculate(s: AppState, a: Option<real>, b: Option<real>, c: Option<real>,
                           timestamp: string)
    requires Accepts(a, b, c)
    ensures LoadLastExample(Calculate(s, a, b, c, timestamp).state)
            == Some(Triple(a.value, b.value, c.value))
  {
  }

  /** Pre-filling happens at page load: after a successful calculation, a
      reload reads the saved history back and fills in that calculation's inputs. */
  lemma ReloadPrefillsLast(s: AppState, a: Option<real>, b: Option<real>, c: Option<real>,
                           timestamp: string)
    requires Accepts(a, b, c)
    ensures LoadLastExample(Init(Calculate(s, a, b, c, timestamp).state.store))
            == Some(Triple(a.value, b.value, c.value))
  {
  }

  /** The worked example of each mode passes the gate and calculates to 25
      (direct) or 12 (inverse), the value both shown and stored. */
  lemma ExampleCalculates(s: AppState, timestamp: string)
    ensures var t := LoadExample(s);
      var r := Calculate(s, Some(t.a), Some(t.b), Some(t.c), timestamp);
      && r.shown == Some(if s.mode == Direct then 25.0 else 12.0)
      && r.state.history[0].x == r.shown.value
  {
  }

  /** Changing the mode leaves every stored record, and its mode, as it was. */
  lemma SetModeKeepsRecords(s: AppState, m: Mode, i: nat)
    requires i < |s.history|
    ensures i < |SetMode(s, m).history|
    ensures SetMode(s, m).history[i].mode == s.history[i].mode
  {
  }

  /** After a confirmed clear, reloading the page starts with an empty history. */
  lemma ClearThenReload(s: AppState)
    ensures Init(ClearHistory(s, true).store).history == []
  {
  }

  /** The user actions, as the page's buttons and toggle trigger them. */
  datatype Action =
    | ChooseMode(m: Mode)
    | Press(a: Option<real>, b: Option<real>, c: Option<real>, timestamp: string)
    | ClearAll(confirmed: bool)

  function Apply(s: AppState, act: Action): AppState
  {
    match act
    case ChooseMode(m) => SetMode(s, m)
    case Press(a, b, c, ts) => Calculate(s, a, b, c, ts).state
    case ClearAll(ok) => ClearHistory(s, ok)
  }

  /** The state after the actions `acts`, in order. */
  function Run(s: AppState, acts: seq<Action>): AppState
    decreases |acts|
  {
    if |acts| == 0 then s else Run(Apply(s, acts[0]), acts[1..])
  }

  /** Every single action keeps the invariants. */
  lemma ApplyKeepsInv(s: AppState, act: Action)
    requires Inv(s)
    ensures Inv(Apply(s, act))
  {
    match act
    case ChooseMode(m) =>
    case Press(a, b, c, ts) => CalculateKeepsInv(s, a, b, c, ts);
    case ClearAll(ok) =>
  }

  /** Whatever the user does, from a state that holds the invariants, the
      history stays within five entries and mirrored to storage. */
  lemma {:induction false} RunKeepsInv(s: AppState, acts: seq<Action>)
    requires Inv(s)
    ensures Inv(Run(s, acts))
    decreases |acts|
  {
    if |acts| > 0 {
      ApplyKeepsInv(s, acts[0]);
      RunKeepsInv(Apply(s, acts[0]), acts[1..]);
    }
  }

  /** No action ever changes the mode except choosing one. */
  lemma {:induction false} RunKeepsMode(s: AppState, acts: seq<Action>)
    requires forall i :: 0 <= i < |acts| ==> !acts[i].ChooseMode?
    ensures Run(s, acts).mode == s.mode
    decreases |acts|
  {
    if |acts| > 0 {
      RunKeepsMode(Apply(s, acts[0]), acts[1..]);
    }
  }
}
