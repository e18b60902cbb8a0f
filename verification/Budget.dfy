/** src/peer_budget.py: receiving allowances, their renewal and the reported state. */
module Budget {
  import opened Common

  datatype Allowance = Unlimited | Finite(left: nat)

  const MAX_WINDOW: nat := 50

  /** What the command line or a stored configuration may offer as a budget: an integer, also in
      text form, or any other text. */
  datatype BudgetText = Word(text: string) | Integer(value: int)

  function Distance(a: int, b: int): nat {
    if a <= b then b - a else a - b
  }

  /** The window nearest to a number. */
  ghost predicate Closest(window: nat, n: int) {
    window <= MAX_WINDOW && forall m: nat | m <= MAX_WINDOW :: Distance(window, n) <= Distance(m, n)
  }

  /** `None` is the ValueError of the source. */
  function ParseBudget(value: BudgetText): (r: Option<Allowance>)
    ensures r.Some? && r.value.Unlimited? <==> value == Word("unlimited")
    ensures r.None? <==> value.Word? && value.text != "unlimited"
    ensures value.Integer? ==> r.Some? && r.value.Finite? && Closest(r.value.left, value.value)
  {
    match value
    case Word(text) => if text == "unlimited" then Some(Unlimited) else None
    case Integer(n) => Some(Finite(if n < 0 then 0 else Min(n, MAX_WINDOW)))
  }

  predicate Available(a: Allowance) {
    a.Unlimited? || a.left > 0
  }

  function Spend(a: Allowance): Allowance {
    if a.Unlimited? then Unlimited else Finite(if a.left == 0 then 0 else a.left - 1)
  }

  datatype HookEvent = SessionStart | UserPromptSubmit | PostToolUse | Stop

  /** What a submitted prompt says, read off its text by module Prompts. */
  datatype Prompt =
    | Absent               // missing or blank
    | NoticeOf(id: string) // exactly the bridge's own wake notice for this message
    | Foreign              // carries a marker of external data
    | Owner                // anything else: the owner typed it

  datatype Payload = Payload(event: HookEvent, prompt: Prompt, turn: Option<string>)

  /** The owner typed something in a named turn. */
  predicate OwnerPrompt(p: Payload) {
    p.event == UserPromptSubmit && p.prompt.Owner? && Truthy(p.turn)
  }

  /** The guard of the renewal transaction. */
  predicate Renews(limit: Option<Allowance>, ownerTurn: Option<string>, p: Payload) {
    && OwnerPrompt(p)
    && limit.Some? && limit.value.Finite? && limit.value.left <= MAX_WINDOW
    && ownerTurn != p.turn
  }

  datatype Mode = Inbox | Live | Auto | Queue
  datatype Phase = Unknown | Active | Idle | Interrupted

  datatype DeliveryState =
    | ManualInbox | PausedInterrupted | PausedBudget | AfterTurnQueue | AwaitingLifecycleHook
    | PausedWakeBudget | ActiveHooks | IdleLiveOnly | IdleWakeEnabled

  function DeliveryStateOf(mode: Mode, phase: Phase, remaining: Allowance, wakes: Allowance,
                           observed: bool): DeliveryState
  {
    if mode == Inbox then ManualInbox
    else if phase == Interrupted then PausedInterrupted
    else if !Available(remaining) then PausedBudget
    else if mode == Queue then AfterTurnQueue
    else if !observed || phase == Unknown then AwaitingLifecycleHook
    else if mode == Auto && phase == Idle && !Available(wakes) then PausedWakeBudget
    else if phase == Active then ActiveHooks
    else if mode == Live then IdleLiveOnly
    else IdleWakeEnabled
  }
}
