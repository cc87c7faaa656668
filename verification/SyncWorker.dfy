/** One sync worker: its main thread, the heartbeat monitor, the rsync process, the goroutine that
    waits for the process and the goroutine that kills it. Each thread moves in small steps, so every
    interleaving of the threads is a sequence of these steps. Times are in milliseconds. */
module SyncWorker {
  import opened Common
  import opened SyncStore
  import opened RsyncProgress

  const TICK: nat := 1000
  const CALL: nat := 5000
  const GRACE: nat := 5000

  /** `timed` turns the deadlines on. `slack` bounds every scheduling delay, `launch` the time from
      the last look at the context to the start of rsync. */
  datatype Config = Config(timed: bool, slack: nat, launch: nat, speedOf: SpeedParser)

  /****** State *******/

  datatype RunErr = NoErr | Canceled | OtherErr(message: string) | LostRedis(message: string)

  datatype Event = Start | Complete | ErrorEvent | CancelledEvent

  /** A store call under way: what was asked, the last answer of the store if any, and whether the
      call was begun on a context that was already cancelled. */
  datatype Call = Idle | Out(op: Op, reply: Option<Result<Record, ScriptError>>, doomed: bool)

  datatype MainPc = Claiming | FirstCheck | SecondCheck | Launching | AwaitResult | AwaitWatcher | ReadContext
                  | SelfCancel | AwaitMonitor | SavingProgress | Finishing | Returned

  /** The main thread: where it is, the store call in its hands, and what it has found out.
      `claimed` says that the claim was answered with success, `stoppedAtClaim` that the answer
      carried the stop flag, `saved` is the answer to the final update. */
  datatype Main = Main(pc: MainPc, call: Call, claimed: bool, stoppedAtClaim: bool, runErr: RunErr,
                       monitorErr: Option<string>, updateFailed: bool, saved: Option<Record>)

  datatype MonitorPc = NoMonitor | Selecting | Reporting | CancelFor(err: Option<string>)
                     | Sending(err: Option<string>) | Sent

  /** The monitor, the buffer of its channel to the main thread, and how often it has sent. */
  datatype Monitor = Monitor(pc: MonitorPc, call: Call, done: Option<Option<string>>, sends: nat)

  /** The context: cancelled or not, whether by the parent, and whether an answer of the store has
      carried the stop flag. */
  datatype Context = Context(cancelled: bool, parent: bool, stopSeen: bool)

  datatype Process = NotStarted | Alive | Exited(ok: bool)

  datatype WaiterPc = NoWaiter | Waiting | Closed | WaiterDone

  datatype WatcherPc = NoWatcher | Watching | Rechecking | Grace | Quit

  datatype Rsync = Rsync(process: Process, waiter: WaiterPc, waitResult: Option<bool>, watcher: WatcherPc,
                         output: Text)

  const NO_RSYNC := Rsync(NotStarted, NoWaiter, None, NoWatcher, [])

  /** What can be seen from outside: events published, and how often rsync was started. */
  datatype Trace = Trace(events: seq<Event>, launches: nat)

  /** When things happened, and by when they are due. */
  datatype Times = Times(lease: nat, claimDue: nat, monitorDue: nat, cancelAt: nat, launchAt: nat, startAt: nat,
                         graceAt: nat)

  /** `late` are the calls given up on, which the store may still execute. */
  datatype Worker = Worker(id: string, path: string, main: Main, monitor: Monitor, context: Context, rsync: Rsync,
                           trace: Trace, late: set<Op>, times: Times)

  function NewWorker(id: string): Worker {
    Worker(id, "", Main(Claiming, Out(Claim, None, false), false, false, NoErr, None, false, None),
           Monitor(NoMonitor, Idle, None, 0), Context(false, false, false), NO_RSYNC, Trace([], 0), {},
           Times(0, 0, 0, 0, 0, 0, 0))
  }

  /** The progress fields that the output so far amounts to. */
  function FieldsOf(c: Config, output: Text): Progress {
    ReadStream(c.speedOf, NO_PROGRESS, output).fields
  }

  /****** Choosing the final state and the event *******/

  function Outcome(runErr: RunErr, monitorErr: Option<string>): FinalState {
    if monitorErr.Some? then Failed
    else if runErr.Canceled? then Cancelled
    else if runErr.NoErr? then Completed
    else Failed
  }

  function FinalErr(runErr: RunErr, monitorErr: Option<string>): RunErr {
    if monitorErr.Some? then LostRedis(monitorErr.value) else runErr
  }

  function Message(e: RunErr): string {
    match e
    case NoErr => ""
    case Canceled => "context canceled"
    case OtherErr(m) => m
    case LostRedis(m) => "worker lost Redis connection: " + m
  }

  function TerminalEvent(runErr: RunErr, monitorErr: Option<string>, updateFailed: bool, finishFailed: bool): Event {
    if updateFailed || finishFailed then ErrorEvent
    else match Outcome(runErr, monitorErr)
      case Completed => Complete
      case Cancelled => CancelledEvent
      case _ => ErrorEvent
  }

  /** The worker's last lines, in the order it reassigns its variables. */
  method Conclude(rsyncErr: RunErr, monitorErr: Option<string>, updateFailed: bool, finishFailed: bool)
    returns (stored: State, event: Event)
    ensures stored == Outcome(rsyncErr, monitorErr)
    ensures event == TerminalEvent(rsyncErr, monitorErr, updateFailed, finishFailed)
    ensures event == Complete ==> stored == Completed && rsyncErr == NoErr && monitorErr == None
    ensures event == CancelledEvent ==> stored == Cancelled && rsyncErr == Canceled && monitorErr == None
  {
    var runErr := rsyncErr;
    var state := Completed;
    if runErr != NoErr { state := Failed; }
    if runErr == Canceled { state := Cancelled; }
    if monitorErr.Some? {
      state := Failed;
      runErr := LostRedis(monitorErr.value);
    }
    stored := state;
    if state == Cancelled { runErr := NoErr; }
    var resultErr := runErr != NoErr || updateFailed || finishFailed;
    event := Complete;
    if state == Cancelled { event := CancelledEvent; }
    if resultErr { event := ErrorEvent; }
  }

  /****** Steps *******/

  datatype Move =
    | MainMoves
    | Launch(ok: bool, message: string)
    | MainReturns(ok: bool)
    | MonitorMoves
    | MonitorSeesCancel
    | MonitorTicks
    | MonitorReturns(ok: bool, message: string)
    | ParentCancels
    | Prints(chunk: Text)
    | Exits(ok: bool)
    | WaiterMoves
    | WatcherSeesDone
    | WatcherSeesCancel
    | WatcherRechecks
    | TimerFires

  predicate Succeeded(call: Call) {
    call.Out? && call.reply.Some? && call.reply.value.Ok?
  }

  predicate ProcessDone(r: Rsync) {
    r.waiter == Closed || r.waiter == WaiterDone
  }

  predicate MainCanMove(w: Worker) {
    match w.main.pc
    case FirstCheck => true
    case SecondCheck => true
    case AwaitResult => w.rsync.waitResult.Some?
    case AwaitWatcher => w.rsync.watcher == Quit
    case ReadContext => true
    case SelfCancel => true
    case AwaitMonitor => w.monitor.done.Some?
    case _ => false
  }

  predicate Enabled(w: Worker, m: Move) {
    match m
    case MainMoves => MainCanMove(w)
    case Launch(_, _) => w.main.pc == Launching
    case MainReturns(ok) => w.main.call.Out? && (ok ==> Succeeded(w.main.call))
    case MonitorMoves => w.monitor.pc.CancelFor? || (w.monitor.pc.Sending? && w.monitor.done == None)
    case MonitorSeesCancel => w.monitor.pc == Selecting && w.context.cancelled
    case MonitorTicks => w.monitor.pc == Selecting
    case MonitorReturns(ok, _) => w.monitor.pc == Reporting && w.monitor.call.Out? && (ok ==> Succeeded(w.monitor.call))
    case ParentCancels => true
    case Prints(_) => w.rsync.process == Alive
    case Exits(_) => w.rsync.process == Alive
    case WaiterMoves =>
      && w.rsync.process.Exited?
      && (w.rsync.waiter == Waiting || (w.rsync.waiter == Closed && w.rsync.waitResult == None))
    case WatcherSeesDone => (w.rsync.watcher == Watching || w.rsync.watcher == Grace) && ProcessDone(w.rsync)
    case WatcherSeesCancel => w.rsync.watcher == Watching && w.context.cancelled
    case WatcherRechecks => w.rsync.watcher == Rechecking
    case TimerFires => w.rsync.watcher == Grace
  }

  function CancelNow(w: Worker, now: nat): Worker {
    if w.context.cancelled then w
    else w.(context := w.context.(cancelled := true), times := w.times.(cancelAt := now))
  }

  function At(w: Worker, pc: MainPc): Worker {
    w.(main := w.main.(pc := pc))
  }

  function Ended(w: Worker, err: RunErr): Worker {
    w.(main := w.main.(pc := SelfCancel, runErr := err))
  }

  /** The first look at the context. */
  function CheckFirst(w: Worker): Worker {
    if w.context.cancelled then Ended(w, Canceled)
    else At(w, SecondCheck).(trace := w.trace.(events := w.trace.events + [Start]))
  }

  /** The second look, after the start event. */
  function CheckSecond(w: Worker, now: nat): Worker {
    if w.context.cancelled then Ended(w, Canceled)
    else At(w, Launching).(times := w.times.(launchAt := now))
  }

  /** What startSync returns, once the process and its two goroutines are done. */
  function ReadResult(w: Worker): Worker {
    Ended(w, if w.context.cancelled then Canceled
             else if w.rsync.process == Exited(true) then NoErr
             else OtherErr("rsync failed"))
  }

  function TakeMonitor(c: Config, w: Worker): Worker
    requires w.monitor.done.Some?
  {
    w.(main := w.main.(pc := SavingProgress, monitorErr := w.monitor.done.value,
                       call := Out(Report(FieldsOf(c, w.rsync.output)), None, false)),
       monitor := w.monitor.(done := None))
  }

  /** The main thread's own moves between store calls. */
  function MainMove(c: Config, w: Worker, now: nat): Worker
    requires MainCanMove(w)
  {
    match w.main.pc
    case FirstCheck => CheckFirst(w)
    case SecondCheck => CheckSecond(w, now)
    case AwaitResult => At(w, AwaitWatcher).(rsync := w.rsync.(waitResult := None))
    case AwaitWatcher => At(w, ReadContext)
    case ReadContext => ReadResult(w)
    case SelfCancel => At(CancelNow(w, now), AwaitMonitor)
    case AwaitMonitor => TakeMonitor(c, w)
    case _ => w
  }

  function Launched(w: Worker, now: nat, ok: bool, message: string): Worker {
    if ok then
      At(w, AwaitResult).(trace := w.trace.(launches := w.trace.launches + 1), times := w.times.(startAt := now),
                          rsync := Rsync(Alive, Waiting, None, Watching, []))
    else Ended(w, OtherErr(message))
  }

  function GivenUp(late: set<Op>, call: Call, ok: bool): set<Op>
    requires call.Out?
  {
    if ok then late else late + {call.op}
  }

  /** The claim comes back: the context is made, a requested stop cancels it, the monitor starts. */
  function ClaimReturn(c: Config, w: Worker, now: nat, ok: bool): Worker
    requires w.main.call.Out? && (ok ==> Succeeded(w.main.call))
  {
    if ok then
      var r := w.main.call.reply.value.value;
      var started := w.(
        path := r.path,
        main := w.main.(pc := FirstCheck, call := Idle, claimed := true, stoppedAtClaim := r.stop),
        monitor := w.monitor.(pc := Selecting),
        context := w.context.(stopSeen := r.stop),
        times := w.times.(monitorDue := now + TICK + c.slack));
      if r.stop || w.context.parent then CancelNow(started, now) else started
    else w.(main := w.main.(pc := Returned, call := Idle), late := GivenUp(w.late, w.main.call, ok))
  }

  function SaveReturn(w: Worker, ok: bool): Worker
    requires w.main.call.Out?
  {
    var state := Outcome(w.main.runErr, w.main.monitorErr);
    var message := Message(FinalErr(w.main.runErr, w.main.monitorErr));
    w.(main := w.main.(pc := Finishing, updateFailed := !ok, call := Out(Finish(state, message), None, false)),
       late := GivenUp(w.late, w.main.call, ok))
  }

  function FinishReturn(w: Worker, ok: bool): Worker
    requires w.main.call.Out? && (ok ==> Succeeded(w.main.call))
  {
    var event := TerminalEvent(w.main.runErr, w.main.monitorErr, w.main.updateFailed, !ok);
    w.(main := w.main.(pc := Returned, call := Idle,
                       saved := if ok then Some(w.main.call.reply.value.value) else None),
       trace := w.trace.(events := w.trace.events + [event]),
       late := GivenUp(w.late, w.main.call, ok))
  }

  /** A store call of the main thread comes back. */
  function MainReturn(c: Config, w: Worker, now: nat, ok: bool): Worker
    requires Enabled(w, MainReturns(ok))
  {
    match w.main.pc
    case Claiming => ClaimReturn(c, w, now, ok)
    case SavingProgress => SaveReturn(w, ok)
    case _ => FinishReturn(w, ok)
  }

  function MonitorMove(w: Worker, now: nat): Worker
    requires Enabled(w, MonitorMoves)
  {
    if w.monitor.pc.CancelFor? then CancelNow(w, now).(monitor := w.monitor.(pc := Sending(w.monitor.pc.err)))
    else w.(monitor := w.monitor.(pc := Sent, done := Some(w.monitor.pc.err), sends := w.monitor.sends + 1))
  }

  function MonitorTick(c: Config, w: Worker, now: nat): Worker {
    w.(monitor := w.monitor.(pc := Reporting,
                             call := Out(Report(FieldsOf(c, w.rsync.output)), None, w.context.cancelled)),
       times := w.times.(monitorDue := now + CALL + c.slack))
  }

  function MonitorReturn(c: Config, w: Worker, now: nat, ok: bool, message: string): Worker
    requires Enabled(w, MonitorReturns(ok, message))
  {
    if !ok then
      w.(monitor := w.monitor.(pc := CancelFor(Some(message)), call := Idle),
         late := GivenUp(w.late, w.monitor.call, ok))
    else if w.monitor.call.reply.value.value.stop then
      w.(monitor := w.monitor.(pc := CancelFor(None), call := Idle), context := w.context.(stopSeen := true))
    else
      w.(monitor := w.monitor.(pc := Selecting, call := Idle),
         times := w.times.(monitorDue := now + TICK + c.slack))
  }

  function ParentCancel(w: Worker, now: nat): Worker {
    var told := w.(context := w.context.(parent := true));
    if w.main.claimed then CancelNow(told, now) else told
  }

  function WaiterMove(r: Rsync): Rsync
    requires r.process.Exited?
  {
    if r.waiter == Waiting then r.(waiter := Closed)
    else r.(waiter := WaiterDone, waitResult := Some(r.process.ok))
  }

  /** Signal the process group unless the process has finished meanwhile. */
  function Recheck(w: Worker, now: nat): Worker {
    if ProcessDone(w.rsync) then w.(rsync := w.rsync.(watcher := Quit))
    else w.(rsync := w.rsync.(watcher := Grace), times := w.times.(graceAt := now))
  }

  /** The worker after a move. Whatever the move, the worker serves the same reservation and never
      forgets a claim. */
  function After(c: Config, w: Worker, m: Move, now: nat): (v: Worker)
    requires Enabled(w, m)
    ensures v.id == w.id
    ensures w.main.claimed ==> v.main.claimed
    ensures !m.MainReturns? ==> v.main.claimed == w.main.claimed && v.main.stoppedAtClaim == w.main.stoppedAtClaim
    ensures !m.MainReturns? && !m.MainMoves? ==> v.main.call == w.main.call
  {
    match m
    case MainMoves => MainMove(c, w, now)
    case Launch(ok, message) => Launched(w, now, ok, message)
    case MainReturns(ok) => MainReturn(c, w, now, ok)
    case MonitorMoves => MonitorMove(w, now)
    case MonitorSeesCancel => w.(monitor := w.monitor.(pc := Sending(None)))
    case MonitorTicks => MonitorTick(c, w, now)
    case MonitorReturns(ok, message) => MonitorReturn(c, w, now, ok, message)
    case ParentCancels => ParentCancel(w, now)
    case Prints(chunk) => w.(rsync := w.rsync.(output := w.rsync.output + chunk))
    case Exits(ok) => w.(rsync := w.rsync.(process := Exited(ok)))
    case WaiterMoves => w.(rsync := WaiterMove(w.rsync))
    case WatcherSeesDone => w.(rsync := w.rsync.(watcher := Quit))
    case WatcherSeesCancel => w.(rsync := w.rsync.(watcher := Rechecking))
    case WatcherRechecks => Recheck(w, now)
    case TimerFires => w.(rsync := w.rsync.(watcher := Quit))
  }

  /** The store executes the call in the main thread's or the monitor's hands, perhaps not for the
      first time, and its answer replaces any earlier one. */
  function Answered(c: Config, w: Worker, toMonitor: bool, reply: Result<Record, ScriptError>, now: nat): Worker
    requires if toMonitor then w.monitor.call.Out? else w.main.call.Out?
  {
    if toMonitor then
      w.(monitor := w.monitor.(call := w.monitor.call.(reply := Some(reply))),
         times := if reply.Ok? then w.times.(lease := now) else w.times)
    else
      w.(main := w.main.(call := w.main.call.(reply := Some(reply))),
         times := if reply.Ok? && w.main.pc == Claiming
                  then w.times.(lease := now, claimDue := now + CALL + c.slack)
                  else w.times)
  }

  function Later(a: nat, b: nat): nat {
    if a < b then b else a
  }

  /** Time may reach `t`: every thread that has to act by some moment before has acted. */
  predicate WithinDeadlines(c: Config, w: Worker, t: nat) {
    && (w.main.pc == Claiming && Succeeded(w.main.call) ==> t <= w.times.claimDue)
    && (w.monitor.pc == Selecting && !w.context.cancelled ==> t <= w.times.monitorDue)
    && (w.monitor.pc == Reporting || w.monitor.pc.CancelFor? ==> t <= w.times.monitorDue)
    && (w.main.pc == Launching ==> t <= w.times.launchAt + c.launch)
    && (w.rsync.process == Alive && w.context.cancelled
        && (w.rsync.watcher == Watching || w.rsync.watcher == Rechecking) ==>
          t <= Later(w.times.cancelAt, w.times.startAt) + c.slack)
    && (w.rsync.process == Alive && (w.rsync.watcher == Grace || w.rsync.watcher == Quit) ==>
          t <= w.times.graceAt + GRACE + c.slack)
  }
}
