/** The per-target output state machine of `PushWidget`. The source keeps no
    state variable: its state is what the widget shows, so the model's state
    is that tuple, and each host notification handler is a pure transition
    applied in the order the UI thread runs them. */
module OutputUi {

  import opened Wrappers
  import opened Telemetry

  /** The main button's caption. */
  datatype Label = StartLabel | StopLabel

  function LabelText(l: Label): string {
    match l
    case StartLabel => "開始"
    case StopLabel => "停止"
  }

  /** The status line under the buttons. `Blank` is the empty text shown
      before the first start and after a clean stop. */
  datatype Status =
    | Blank
    | ConnectingMsg
    | StreamingMsg
    | ReconnectingMsg
    | StoppingMsg
    | AddressError
    | ConnectFailed
    | CommFailed
    | Rejected
    | UnknownError

  function StatusText(s: Status): string {
    match s
    case Blank => ""
    case ConnectingMsg => "接続中"
    case StreamingMsg => "配信中"
    case ReconnectingMsg => "再接続中"
    case StoppingMsg => "停止中..."
    case AddressError => "！RTMPアドレスエラーです"
    case ConnectFailed => "！サーバーに接続失敗"
    case CommFailed => "！サーバーに通信失敗"
    case Rejected => "！サーバーに拒否された"
    case UnknownError => "！知らんエラー"
  }

  /** Distinct statuses are displayed as distinct texts, so the user can tell
      every failure reason apart. */
  lemma StatusTextInjective(a: Status, b: Status)
    requires a != b
    ensures StatusText(a) != StatusText(b)
  {
  }

  /** The main button's two captions are different texts. */
  lemma CaptionsDistinct()
    ensures LabelText(StartLabel) != LabelText(StopLabel)
  {
  }

  /** The message a stop result code leaves in the status line. Total: every
      code gets one. */
  function StopMessage(code: int): (s: Status)
    ensures code == 0 <==> s == Blank
    ensures code == -1 <==> s == AddressError
    ensures code == -2 <==> s == ConnectFailed
    ensures code == -3 <==> s == CommFailed
    ensures code == -4 <==> s == Rejected
    ensures !(-4 <= code <= 0) <==> s == UnknownError
  {
    match code
    case 0 => Blank
    case -1 => AddressError
    case -2 => ConnectFailed
    case -3 => CommFailed
    case -4 => Rejected
    case _ => UnknownError
  }

  /** The five known codes are told apart, and only they are. */
  lemma StopMessageInjective(c1: int, c2: int)
    requires -4 <= c1 <= 0
    ensures StopMessage(c1) == StopMessage(c2) <==> c1 == c2
  {
  }

  /** Everything the widget shows about one target. */
  datatype UiState = UiState(
    removeEnabled: bool,
    mainEnabled: bool,
    caption: Label,
    status: Status,
    timerRunning: bool,
    baseline: Baseline,
    fps: Option<nat>)

  /** A freshly constructed widget: both buttons enabled, caption "start",
      empty status and fps, timer stopped, baseline at the clock's epoch. */
  const Initial: UiState := UiState(true, true, StartLabel, Blank, false, Baseline(0, 0), None)

  /** `ResetInfo`: zero the frame baseline at `now` and clear the fps label. */
  function ResetInfo(ui: UiState, now: nat): (r: UiState)
    ensures r.baseline == Reset(now) && r.fps == None
    ensures r.(baseline := ui.baseline, fps := ui.fps) == ui
  {
    ui.(baseline := Reset(now), fps := None)
  }

  /** The notifications a target's output delivers, plus the timer's tick. */
  datatype Event =
    | Starting
    | Started(now: nat)
    | Reconnect
    | Reconnected(now: nat)
    | Stopping
    | Stopped(code: int, now: nat)
    | Tick(frames: nat, now: nat)

  function OnStarting(ui: UiState): UiState {
    ui.(removeEnabled := false, mainEnabled := false, status := ConnectingMsg)
  }

  function OnStarted(ui: UiState, now: nat): UiState {
    ResetInfo(ui.(removeEnabled := false, caption := StopLabel, mainEnabled := true, status := StreamingMsg), now)
      .(timerRunning := true)
  }

  function OnReconnect(ui: UiState): UiState {
    ui.(removeEnabled := false, caption := StopLabel, mainEnabled := true, status := ReconnectingMsg)
  }

  function OnReconnected(ui: UiState, now: nat): UiState {
    ResetInfo(ui.(removeEnabled := false, caption := StopLabel, mainEnabled := true, status := StreamingMsg), now)
  }

  function OnStopping(ui: UiState): UiState {
    ui.(removeEnabled := false, caption := StopLabel, mainEnabled := false, status := StoppingMsg)
  }

  function OnStopped(ui: UiState, code: int, now: nat): UiState {
    ResetInfo(ui, now).(timerRunning := false, removeEnabled := true, caption := StartLabel,
                        mainEnabled := true, status := StopMessage(code))
  }

  /** The timer's timeout handler. A stopped `QTimer` delivers no timeouts. */
  function OnTick(ui: UiState, frames: nat, now: nat): UiState {
    if ui.timerRunning then
      var s := Sample(ui.baseline, ui.fps, frames, now);
      ui.(baseline := s.baseline, fps := s.fps)
    else
      ui
  }

  /** One event, run on the UI thread. */
  function Deliver(ui: UiState, e: Event): (r: UiState)
    ensures e.Stopped? ==> r.removeEnabled
    ensures !e.Stopped? && !e.Tick? ==> !r.removeEnabled
    ensures e.Tick? ==> r.(baseline := ui.baseline, fps := ui.fps) == ui
    ensures e.Tick? && !ui.timerRunning ==> r == ui
  {
    match e
    case Starting => OnStarting(ui)
    case Started(now) => OnStarted(ui, now)
    case Reconnect => OnReconnect(ui)
    case Reconnected(now) => OnReconnected(ui, now)
    case Stopping => OnStopping(ui)
    case Stopped(code, now) => OnStopped(ui, code, now)
    case Tick(frames, now) => OnTick(ui, frames, now)
  }

  /** Events run one at a time, in delivery order. */
  function DeliverAll(ui: UiState, es: seq<Event>): UiState
    decreases |es|
  {
    if es == [] then ui else DeliverAll(Deliver(ui, es[0]), es[1..])
  }

  /** The connection phase a status line stands for. */
  datatype Phase = Idle | Connecting | Live | StopPending

  function PhaseOf(s: Status): Phase {
    match s
    case ConnectingMsg => Connecting
    case StreamingMsg | ReconnectingMsg => Live
    case StoppingMsg => StopPending
    case _ => Idle
  }

  /** How the controls hang together in every reachable state: the remove
      button is usable exactly when idle, the main button exactly when not
      in a transition, an idle widget offers "start" with the timer off, a
      live or stopping one offers "stop", and with the timer off there is
      no fps figure and no frame baseline. */
  ghost predicate Consistent(ui: UiState) {
    && (ui.removeEnabled <==> PhaseOf(ui.status) == Idle)
    && (ui.mainEnabled <==> PhaseOf(ui.status) in {Idle, Live})
    && (PhaseOf(ui.status) == Idle ==> ui.caption == StartLabel && !ui.timerRunning)
    && (PhaseOf(ui.status) in {Live, StopPending} ==> ui.caption == StopLabel)
    && (ui.timerRunning ==> ui.caption == StopLabel)
    && (!ui.timerRunning ==> ui.fps.None? && ui.baseline.frames == 0)
  }

  lemma InitialConsistent()
    ensures Consistent(Initial)
  {
  }

  /** Every handler lands in its own phase and keeps the controls consistent. */
  lemma DeliverPreservesConsistent(ui: UiState, e: Event)
    requires Consistent(ui)
    ensures Consistent(Deliver(ui, e))
    ensures e.Starting? ==> PhaseOf(Deliver(ui, e).status) == Connecting
    ensures e.Started? || e.Reconnect? || e.Reconnected? ==> PhaseOf(Deliver(ui, e).status) == Live
    ensures e.Stopping? ==> PhaseOf(Deliver(ui, e).status) == StopPending
    ensures e.Stopped? ==> PhaseOf(Deliver(ui, e).status) == Idle
    ensures e.Tick? ==> Deliver(ui, e).status == ui.status
  {
  }

  /** Any sequence of events from a consistent state ends consistent. */
  lemma {:induction false} DeliverAllPreservesConsistent(ui: UiState, es: seq<Event>)
    requires Consistent(ui)
    ensures Consistent(DeliverAll(ui, es))
    decreases |es|
  {
    if es != [] {
      DeliverPreservesConsistent(ui, es[0]);
      DeliverAllPreservesConsistent(Deliver(ui, es[0]), es[1..]);
    }
  }

  /** Every state the widget can reach is consistent. */
  lemma Reachable(es: seq<Event>)
    ensures Consistent(DeliverAll(Initial, es))
  {
    DeliverAllPreservesConsistent(Initial, es);
  }

  /** The stop notification forgets everything before it: whatever the
      widget showed, it is back to the idle controls, with the timer off,
      the baseline at zero, the fps caption empty, and the code's message. */
  lemma StoppedResets(ui: UiState, code: int, now: nat)
    ensures Deliver(ui, Stopped(code, now))
         == UiState(true, true, StartLabel, StopMessage(code), false, Baseline(0, now), None)
  {
  }

  /** A reconnect-success in the middle of a stream zeroes the plugin's copy
      of the frame count but not the host's counter, so the next figure is
      the counter's whole reading over the time since the reconnect,
      whatever the stream counted before it. */
  lemma TickAfterReconnected(ui: UiState, t0: nat, frames: nat, t1: nat)
    requires ui.timerRunning
    requires t1 >= t0 + NanosPerMilli
    requires frames * 1000 < U64
    ensures var r := Deliver(Deliver(ui, Reconnected(t0)), Tick(frames, t1));
      && r.fps.Some?
      && r.fps.value * ElapsedMillis(t0, t1) <= frames * 1000 < (r.fps.value + 1) * ElapsedMillis(t0, t1)
  {
  }

  /** After a start notification the timer runs from a fresh baseline and the
      main button offers "stop"; a reconnect-success resets the baseline but
      leaves the timer as it was. */
  lemma StartedAndReconnected(ui: UiState, now: nat)
    ensures var r := Deliver(ui, Started(now));
      r.timerRunning && r.mainEnabled && r.caption == StopLabel && r.baseline == Reset(now) && r.fps == None
    ensures var r := Deliver(ui, Reconnected(now));
      r.timerRunning == ui.timerRunning && r.mainEnabled && r.caption == StopLabel && r.baseline == Reset(now)
  {
  }

  /** The main button: disabled by the starting and stopping notifications,
      enabled with caption "stop" by reconnect and reconnect-success. */
  lemma MainButton(ui: UiState)
    ensures !Deliver(ui, Starting).mainEnabled && !Deliver(ui, Stopping).mainEnabled
    ensures Deliver(ui, Reconnect).mainEnabled && Deliver(ui, Reconnect).caption == StopLabel
    ensures Deliver(ui, Stopping).caption == StopLabel && Deliver(ui, Starting).caption == ui.caption
  {
  }

  /** The last notification (timer ticks are not notifications) in a
      sequence, if any. */
  function LastNotification(es: seq<Event>): Option<Event>
    decreases |es|
  {
    if es == [] then None
    else if LastNotification(es[1..]).Some? then LastNotification(es[1..])
    else if es[0].Tick? then None
    else Some(es[0])
  }

  /** The remove button is usable after a sequence of events exactly when the
      last notification in it was a stop, or when there was none and it was
      usable before. */
  lemma {:induction false} RemoveOnlyAfterStop(ui: UiState, es: seq<Event>)
    ensures DeliverAll(ui, es).removeEnabled <==>
      match LastNotification(es)
      case Some(e) => e.Stopped?
      case None => ui.removeEnabled
    decreases |es|
  {
    if es != [] {
      RemoveOnlyAfterStop(Deliver(ui, es[0]), es[1..]);
    }
  }

  /** A start is always followed by a stop before the widget is idle again:
      from an idle widget, a sequence without a stop notification that
      contains any other notification leaves it not idle. */
  lemma {:induction false} NoIdleWithoutStop(ui: UiState, es: seq<Event>)
    requires Consistent(ui)
    requires forall i :: 0 <= i < |es| ==> !es[i].Stopped?
    requires LastNotification(es).Some?
    ensures PhaseOf(DeliverAll(ui, es).status) != Idle
  {
    RemoveOnlyAfterStop(ui, es);
    DeliverAllPreservesConsistent(ui, es);
    LastIsMember(es);
  }

  lemma {:induction false} LastIsMember(es: seq<Event>)
    requires LastNotification(es).Some?
    ensures LastNotification(es).value in es
    decreases |es|
  {
    if LastNotification(es[1..]).Some? {
      LastIsMember(es[1..]);
    }
  }
}
