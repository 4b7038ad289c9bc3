/**
 The life of a network connection: close requests from any thread, reads and writes that complete
 asynchronously, and the release of the connection object once nothing is pending any more.

 Handlers hold the connection's lock from start to end, so a run is a sequence of handlers. The
 one exception is the scheduling of the release, which comes after the unlocking and is a step of
 its own here.
 */
module Connection {
  import opened Wrappers

  const NETWORKMESSAGE_MAXSIZE := 16768

  datatype CloseState = CLOSE_STATE_NONE | CLOSE_STATE_REQUESTED | CLOSE_STATE_CLOSING

  datatype ErrorCode = NoError | OperationAborted | Eof | ConnectionReset | OtherError

  /** Which handler waits for the read that is under way. */
  datatype Reading = NoRead | HeaderRead | PacketRead

  /** What a protocol does while it handles a message; it holds the lock. */
  datatype Act = CallClose | CallSend

  datatype State = State(
    closeState: CloseState, socketClosed: bool, readError: bool, writeError: bool,
    pendingRead: int, pendingWrite: int, refCount: nat, hasProtocol: bool,
    // the world outside: operations under way, tasks waiting, and what has been done for good
    reading: Reading, writing: nat,
    closeTasks: nat, releaseOwed: nat, releaseTasks: nat, protocolTasks: nat,
    accepted: bool, deleted: bool)

  function Initial(): State {
    State(CLOSE_STATE_NONE, false, false, false, 0, 0, 0, false, NoRead, 0, 0, 0, 0, 0, false, false)
  }

  datatype Event =
    | Accept
    | CloseRequest
    | RunCloseTask
    | HeaderDone(error: ErrorCode, size: int)
    | PacketDone(error: ErrorCode, protocolId: int, acts: seq<Act>)
    | Send
    | WriteDone(error: ErrorCode)
    | ScheduleRelease
    | RunRelease
    | AddRef
    | DropRef

  // ---------------------------------------------------------------------------------------
  // The handlers as functions

  /** closeConnection */
  function Requested(s: State): State {
    if s.closeState != CLOSE_STATE_NONE then s
    else s.(closeState := CLOSE_STATE_REQUESTED, closeTasks := s.closeTasks + 1)
  }

  /** closingConnection */
  function Closing(s: State): State {
    if s.pendingWrite == 0 || s.writeError then
      var t := s.(socketClosed := true);
      if s.pendingRead == 0 then t.(releaseOwed := t.releaseOwed + 1) else t
    else s
  }

  /** send */
  function Sent(s: State): State {
    if s.closeState == CLOSE_STATE_CLOSING || s.writeError || s.pendingWrite != 0 then s
    else s.(pendingWrite := s.pendingWrite + 1, writing := s.writing + 1)
  }

  function ActedOnce(s: State, act: Act): State {
    match act case CallClose => Requested(s) case CallSend => Sent(s)
  }

  function Acted(s: State, acts: seq<Act>): State
    decreases |acts|
  {
    if acts == [] then s else Acted(ActedOnce(s, acts[0]), acts[1..])
  }

  /** handleReadError and handleWriteError: an aborted operation is no reason to close. */
  function Failed(s: State, error: ErrorCode): State {
    if error == OperationAborted then s else Requested(s)
  }

  function ReadStarted(s: State, kind: Reading): State {
    s.(pendingRead := s.pendingRead + 1, reading := kind)
  }

  predicate KnownProtocol(protocolId: int) {
    protocolId == 0x01 || protocolId == 0x0A || protocolId == 0xFF
  }

  /** onWriteOperation, once the write is no longer pending */
  function Concluded(s: State, error: ErrorCode): State {
    var u := if error != NoError then Failed(s, error).(writeError := true) else s;
    if u.closeState == CLOSE_STATE_CLOSING then Closing(u) else u
  }

  function Next(s: State, e: Event): State
    requires Enabled(s, e)
  {
    match e
    case Accept => ReadStarted(s.(accepted := true), HeaderRead)
    case CloseRequest => Requested(s)
    case RunCloseTask =>
      var t := s.(closeTasks := s.closeTasks - 1);
      if t.closeState != CLOSE_STATE_REQUESTED then t
      else
        var u := t.(closeState := CLOSE_STATE_CLOSING);
        Closing(if u.hasProtocol then u.(hasProtocol := false, protocolTasks := u.protocolTasks + 1) else u)
    case HeaderDone(error, size) =>
      var t := s.(pendingRead := s.pendingRead - 1, reading := NoRead);
      if t.closeState == CLOSE_STATE_CLOSING then Closing(t)
      else if error == NoError && 0 < size < NETWORKMESSAGE_MAXSIZE - 16 then ReadStarted(t, PacketRead)
      else Failed(t, error).(readError := true)
    case PacketDone(error, protocolId, acts) =>
      var t := s.(pendingRead := s.pendingRead - 1, reading := NoRead);
      if t.closeState == CLOSE_STATE_CLOSING then Closing(t)
      else if error != NoError then Failed(t, error).(readError := true)
      else if !t.hasProtocol && !KnownProtocol(protocolId) then Requested(t)
      else ReadStarted(Acted(t.(hasProtocol := true), acts), HeaderRead)
    case Send => Sent(s)
    case WriteDone(error) =>
      var t := s.(pendingWrite := s.pendingWrite - 1, writing := s.writing - 1);
      Concluded(t, error)
    case ScheduleRelease => s.(releaseOwed := s.releaseOwed - 1, releaseTasks := s.releaseTasks + 1)
    case RunRelease => if s.refCount > 0 then s else s.(releaseTasks := s.releaseTasks - 1, deleted := true)
    case AddRef => s.(refCount := s.refCount + 1)
    case DropRef => s.(refCount := s.refCount - 1)
  }

  /** What can happen next: operations under way complete, waiting tasks run, others call. */
  predicate Enabled(s: State, e: Event) {
    match e
    case Accept => !s.accepted && s.closeState == CLOSE_STATE_NONE && !s.deleted
    case CloseRequest => s.accepted && !s.deleted
    case RunCloseTask => s.closeTasks > 0
    case HeaderDone(_, _) => s.reading == HeaderRead
    case PacketDone(_, _, _) => s.reading == PacketRead
    case Send => s.accepted && !s.deleted
    case WriteDone(_) => s.writing > 0
    case ScheduleRelease => s.releaseOwed > 0
    case RunRelease => s.releaseTasks > 0
    case AddRef => !s.deleted
    case DropRef => !s.deleted && s.refCount > 0
  }

  // ---------------------------------------------------------------------------------------
  // What every step keeps

  function B(b: bool): int { if b then 1 else 0 }

  /** The release has been decided on: it is owed, scheduled or done. */
  predicate Released(s: State) {
    s.releaseOwed + s.releaseTasks + B(s.deleted) > 0
  }

  predicate Inv(s: State) {
    && s.pendingRead == B(s.reading != NoRead)
    && s.pendingWrite == s.writing && 0 <= s.pendingWrite <= 1
    && (s.writeError ==> s.pendingWrite == 0)
    && s.closeTasks == B(s.closeState == CLOSE_STATE_REQUESTED)
    && (s.socketClosed <==> s.closeState == CLOSE_STATE_CLOSING && s.pendingWrite == 0)
    && s.releaseOwed + s.releaseTasks + B(s.deleted)
       == B(s.closeState == CLOSE_STATE_CLOSING && s.pendingWrite == 0 && s.pendingRead == 0)
    && s.protocolTasks + B(s.hasProtocol) <= 1
    && (s.closeState == CLOSE_STATE_CLOSING ==> !s.hasProtocol)
    && (s.closeState != CLOSE_STATE_CLOSING ==> s.protocolTasks == 0)
    && (!s.accepted ==> s.(refCount := 0) == Initial())
    && (s.deleted ==> s.refCount == 0)
  }

  /** What a message handler of a protocol can do to a connection that is not closing. */
  ghost predicate ActedFrom(s: State, t: State) {
    && t.(closeState := s.closeState, closeTasks := s.closeTasks,
          pendingWrite := s.pendingWrite, writing := s.writing) == s
    && (s.pendingWrite == s.writing && 0 <= s.pendingWrite <= 1 && (s.writeError ==> s.pendingWrite == 0) ==>
          t.pendingWrite == t.writing && 0 <= t.pendingWrite <= 1 && (t.writeError ==> t.pendingWrite == 0))
    && (s.closeState != CLOSE_STATE_CLOSING && s.closeTasks == B(s.closeState == CLOSE_STATE_REQUESTED) ==>
          t.closeState != CLOSE_STATE_CLOSING && t.closeTasks == B(t.closeState == CLOSE_STATE_REQUESTED))
  }

  lemma ActKeeps(s: State, act: Act)
    ensures ActedFrom(s, ActedOnce(s, act))
  {
    hide ActedFrom, Requested, Sent;
    match act
    case CallClose => RequestedKeeps(s);
    case CallSend => SentKeeps(s);
  }

  lemma RequestedKeeps(s: State)
    ensures ActedFrom(s, Requested(s))
  {
  }

  lemma SentKeeps(s: State)
    ensures ActedFrom(s, Sent(s))
  {
  }

  lemma ActedFromTwice(s: State, t: State, u: State)
    requires ActedFrom(s, t) && ActedFrom(t, u)
    ensures ActedFrom(s, u)
  {
  }

  lemma {:induction false} ActsKeep(s: State, acts: seq<Act>)
    ensures ActedFrom(s, Acted(s, acts))
    decreases |acts|
  {
    if acts != [] {
      hide ActedFrom, ActedOnce;
      ActKeeps(s, acts[0]);
      ActsKeep(ActedOnce(s, acts[0]), acts[1..]);
      ActedFromTwice(s, ActedOnce(s, acts[0]), Acted(s, acts));
    }
  }

  lemma FailedKeeps(s: State, error: ErrorCode)
    ensures ActedFrom(s, Failed(s, error))
    ensures Failed(s, error).pendingWrite == s.pendingWrite && Failed(s, error).writing == s.writing
  {
    hide ActedFrom;
    RequestedKeeps(s);
    ActedFromItself(s);
  }

  lemma ActedFromItself(s: State)
    ensures ActedFrom(s, s)
  {
  }

  /** A closing connection of which an operation has just ended, or the close task begun. */
  predicate Winding(s: State) {
    && s.closeState == CLOSE_STATE_CLOSING && s.accepted && !s.deleted
    && s.pendingRead == B(s.reading != NoRead)
    && s.pendingWrite == s.writing && 0 <= s.pendingWrite <= 1
    && (s.writeError || s.socketClosed ==> s.pendingWrite == 0)
    && s.closeTasks == 0 && s.releaseOwed == 0 && s.releaseTasks == 0
    && s.protocolTasks <= 1 && !s.hasProtocol
  }

  lemma ClosingKeeps(s: State)
    requires Winding(s)
    ensures Inv(Closing(s))
  {
  }

  /** A step of the environment or of another thread. */
  lemma {:induction false} CallKeeps(s: State, e: Event)
    requires Inv(s) && Enabled(s, e)
    requires e.Accept? || e.CloseRequest? || e.Send? || e.AddRef? || e.DropRef?
    ensures Inv(Next(s, e))
  {
    hide Acted, Closing, Failed;
  }

  lemma {:induction false} TaskKeeps(s: State, e: Event)
    requires Inv(s) && Enabled(s, e)
    requires e.RunCloseTask? || e.ScheduleRelease? || e.RunRelease?
    ensures Inv(Next(s, e))
  {
    hide Acted, Requested, Sent, Failed, Closing;
    if e.RunCloseTask? && s.closeState == CLOSE_STATE_REQUESTED {
      var u := s.(closeTasks := s.closeTasks - 1, closeState := CLOSE_STATE_CLOSING);
      ClosingKeeps(if u.hasProtocol then u.(hasProtocol := false, protocolTasks := u.protocolTasks + 1) else u);
    }
  }

  lemma {:induction false} ReadKeeps(s: State, e: Event)
    requires Inv(s) && Enabled(s, e) && e.HeaderDone?
    ensures Inv(Next(s, e))
  {
    hide Acted, Sent, Closing, Failed;
    var t := s.(pendingRead := s.pendingRead - 1, reading := NoRead);
    if t.closeState == CLOSE_STATE_CLOSING {
      ClosingKeeps(t);
    } else {
      FailedKeeps(t, e.error);
    }
  }

  lemma {:induction false} WriteKeeps(s: State, e: Event)
    requires Inv(s) && Enabled(s, e) && e.WriteDone?
    ensures Inv(Next(s, e))
  {
    hide Acted, Sent, Closing, Failed;
    var t := s.(pendingWrite := s.pendingWrite - 1, writing := s.writing - 1);
    FailedKeeps(t, e.error);
    if t.closeState == CLOSE_STATE_CLOSING {
      FailedWhileClosing(t, e.error);
      ClosingKeeps(if e.error != NoError then t.(writeError := true) else t);
    }
  }

  lemma FailedWhileClosing(s: State, error: ErrorCode)
    requires s.closeState == CLOSE_STATE_CLOSING
    ensures Failed(s, error) == s
  {
  }

  /** A connection that is not closing and reads nothing at the moment. */
  predicate Resting(s: State) {
    && s.closeState != CLOSE_STATE_CLOSING && s.accepted && !s.deleted && !s.socketClosed
    && s.pendingRead == 0 && s.reading == NoRead
    && s.pendingWrite == s.writing && 0 <= s.pendingWrite <= 1 && (s.writeError ==> s.pendingWrite == 0)
    && s.closeTasks == B(s.closeState == CLOSE_STATE_REQUESTED)
    && s.releaseOwed == 0 && s.releaseTasks == 0 && s.protocolTasks == 0
  }

  lemma RestingActed(s: State, t: State)
    requires Resting(s) && ActedFrom(s, t)
    ensures Resting(t)
  {
  }

  lemma RestingKeeps(s: State)
    requires Resting(s)
    ensures Inv(s) && Inv(s.(readError := true)) && Inv(ReadStarted(s, HeaderRead))
    ensures Resting(s.(hasProtocol := true))
  {
  }

  lemma {:induction false} PacketKeeps(s: State, e: Event)
    requires Inv(s) && Enabled(s, e) && e.PacketDone?
    ensures Inv(Next(s, e))
  {
    hide Acted, ActedFrom, Sent, Closing, Failed, Requested, ReadStarted, KnownProtocol;
    var t := s.(pendingRead := s.pendingRead - 1, reading := NoRead);
    if t.closeState == CLOSE_STATE_CLOSING {
      ClosingKeeps(t);
    } else {
      PacketEnds(t, e);
    }
  }

  lemma {:induction false} PacketEnds(t: State, e: Event)
    requires Resting(t) && e.PacketDone?
    ensures Inv(Failed(t, e.error).(readError := true)) && Inv(Requested(t))
    ensures Inv(ReadStarted(Acted(t.(hasProtocol := true), e.acts), HeaderRead))
  {
    hide Acted, ActedFrom, Failed, Requested, ReadStarted, Resting, Inv;
    FailedKeeps(t, e.error);
    RestingActed(t, Failed(t, e.error));
    RestingKeeps(Failed(t, e.error));
    RequestedKeeps(t);
    RestingActed(t, Requested(t));
    RestingKeeps(Requested(t));
    RestingKeeps(t);
    var u := t.(hasProtocol := true);
    ActsKeep(u, e.acts);
    RestingActed(u, Acted(u, e.acts));
    RestingKeeps(Acted(u, e.acts));
  }

  lemma {:induction false} StepKeeps(s: State, e: Event)
    requires Inv(s) && Enabled(s, e)
    ensures Inv(Next(s, e))
  {
    hide Inv, Enabled, Next;
    match e
    case Accept => CallKeeps(s, e);
    case CloseRequest => CallKeeps(s, e);
    case RunCloseTask => TaskKeeps(s, e);
    case HeaderDone(_, _) => ReadKeeps(s, e);
    case PacketDone(_, _, _) => PacketKeeps(s, e);
    case Send => CallKeeps(s, e);
    case WriteDone(_) => WriteKeeps(s, e);
    case ScheduleRelease => TaskKeeps(s, e);
    case RunRelease => TaskKeeps(s, e);
    case AddRef => CallKeeps(s, e);
    case DropRef => CallKeeps(s, e);
  }

  // ---------------------------------------------------------------------------------------
  // Runs

  predicate IsRun(s: State, run: seq<Event>)
    decreases |run|
  {
    run == [] || (Enabled(s, run[0]) && IsRun(Next(s, run[0]), run[1..]))
  }

  function After(s: State, run: seq<Event>): State
    requires IsRun(s, run)
    decreases |run|
  {
    if run == [] then s else After(Next(s, run[0]), run[1..])
  }

  lemma {:induction false} RunKeeps(s: State, run: seq<Event>)
    requires Inv(s) && IsRun(s, run)
    ensures Inv(After(s, run))
    decreases |run|
  {
    if run != [] {
      StepKeeps(s, run[0]);
      RunKeeps(Next(s, run[0]), run[1..]);
    }
  }

  /** How often a run decides on the release of the connection. */
  function Decisions(s: State, run: seq<Event>): nat
    requires IsRun(s, run)
    decreases |run|
  {
    if run == [] then 0
    else (if Next(s, run[0]).releaseOwed > s.releaseOwed then 1 else 0)
         + Decisions(Next(s, run[0]), run[1..])
  }

  function Deletions(s: State, run: seq<Event>): nat
    requires IsRun(s, run)
    decreases |run|
  {
    if run == [] then 0
    else (if run[0] == RunRelease && s.refCount == 0 then 1 else 0) + Deletions(Next(s, run[0]), run[1..])
  }

  /** The release is decided on when, and only when, a closing connection has nothing left to wait for. */
  lemma {:induction false} DecidedWhenIdle(s: State, e: Event)
    requires Inv(s) && Enabled(s, e)
    ensures Next(s, e).releaseOwed > s.releaseOwed <==> !Released(s) && Released(Next(s, e))
    ensures Next(s, e).releaseOwed > s.releaseOwed ==>
              var t := Next(s, e);
              t.releaseOwed == s.releaseOwed + 1 && t.closeState == CLOSE_STATE_CLOSING && t.socketClosed &&
              t.pendingRead == 0 && t.pendingWrite == 0
    ensures Released(s) ==> Released(Next(s, e))
  {
    hide Acted;
    StepKeeps(s, e);
    if e.PacketDone? {
      ActsKeep(s.(pendingRead := s.pendingRead - 1, reading := NoRead, hasProtocol := true), e.acts);
    }
  }

  /** Over any run the release is decided on exactly once or not at all. */
  lemma {:induction false} ReleasedOnce(s: State, run: seq<Event>)
    requires Inv(s) && IsRun(s, run)
    ensures Decisions(s, run) == B(Released(After(s, run))) - B(Released(s))
    ensures Released(s) ==> Released(After(s, run))
    decreases |run|
  {
    if run != [] {
      StepKeeps(s, run[0]);
      DecidedWhenIdle(s, run[0]);
      ReleasedOnce(Next(s, run[0]), run[1..]);
    }
  }

  /** Once the release is decided on, no read, write or close task is left that could come back. */
  lemma {:induction false} NothingComesBack(s: State, e: Event)
    requires Inv(s) && Released(s) && Enabled(s, e)
    ensures !e.HeaderDone? && !e.PacketDone? && !e.WriteDone? && !e.RunCloseTask? && !e.Accept?
  {
  }

  lemma {:induction false} NothingAfterDeletion(s: State, e: Event)
    requires Inv(s) && Enabled(s, e)
    ensures !s.deleted
    ensures Next(s, e).deleted <==> e == RunRelease && s.refCount == 0
  {
    hide Acted, Requested, Sent, Closing, Failed, KnownProtocol;
    match e
    case CloseRequest => DeletedKept(s);
    case Send => DeletedKept(s);
    case RunCloseTask =>
      var u := s.(closeTasks := s.closeTasks - 1, closeState := CLOSE_STATE_CLOSING);
      DeletedKept(if u.hasProtocol then u.(hasProtocol := false, protocolTasks := u.protocolTasks + 1) else u);
    case HeaderDone(_, _) =>
      DeletedKept(s.(pendingRead := s.pendingRead - 1, reading := NoRead));
    case PacketDone(_, _, acts) =>
      var t := s.(pendingRead := s.pendingRead - 1, reading := NoRead);
      DeletedKept(t);
      ActsKeep(t.(hasProtocol := true), acts);
    case WriteDone(error) =>
      var t := s.(pendingWrite := s.pendingWrite - 1, writing := s.writing - 1);
      DeletedKept(t);
      DeletedKept(if error != NoError then Failed(t, error).(writeError := true) else t);
    case _ =>
  }

  lemma DeletedKept(s: State)
    ensures Requested(s).deleted == s.deleted && Sent(s).deleted == s.deleted && Closing(s).deleted == s.deleted
    ensures forall error :: Failed(s, error).deleted == s.deleted
  {
    forall error ensures Failed(s, error).deleted == s.deleted {}
    hide Failed;
  }

  /** The object is deleted once at most, and not before it has been released; then nothing happens any more. */
  lemma {:induction false} DeletedOnce(s: State, run: seq<Event>)
    requires Inv(s) && IsRun(s, run)
    ensures Deletions(s, run) == B(After(s, run).deleted) - B(s.deleted)
    ensures s.deleted ==> run == []
    decreases |run|
  {
    hide Acted, Sent, Failed, Closing, Requested, Inv;
    if run != [] {
      StepKeeps(s, run[0]);
      NothingAfterDeletion(s, run[0]);
      DeletedOnce(Next(s, run[0]), run[1..]);
    }
  }

  /** How many reads and writes complete in a run. */
  function Completions(run: seq<Event>): nat {
    if run == [] then 0
    else (if run[0].HeaderDone? || run[0].PacketDone? || run[0].WriteDone? then 1 else 0) + Completions(run[1..])
  }

  lemma ClosingNow(s: State)
    requires Inv(s) && s.closeState == CLOSE_STATE_CLOSING
    ensures 0 <= s.pendingRead + s.pendingWrite <= 2
    ensures Released(s) <==> s.pendingRead + s.pendingWrite == 0
  {
  }

  /** While closing, every completion is one less to come, and nothing new starts. */
  lemma {:induction false} ClosingCounts(s: State, e: Event)
    requires Inv(s) && Enabled(s, e) && s.closeState == CLOSE_STATE_CLOSING
    ensures var t := Next(s, e);
            && t.closeState == CLOSE_STATE_CLOSING
            && t.pendingRead + t.pendingWrite ==
                 s.pendingRead + s.pendingWrite - B(e.HeaderDone? || e.PacketDone? || e.WriteDone?)
            && s.pendingRead + s.pendingWrite <= 2
  {
    hide Acted;
  }

  /**
   Once the connection is closing, the completions still to come are those under way, two at most,
   and it is released with exactly the last of them.
   */
  lemma {:induction false} ClosingEnds(s: State, run: seq<Event>)
    requires Inv(s) && s.closeState == CLOSE_STATE_CLOSING && IsRun(s, run)
    ensures Completions(run) <= s.pendingRead + s.pendingWrite <= 2
    ensures Released(After(s, run)) <==> Completions(run) == s.pendingRead + s.pendingWrite
    decreases |run|
  {
    hide Acted, Sent, Failed, Requested, Inv;
    if run == [] {
      ClosingNow(s);
    } else {
      StepKeeps(s, run[0]);
      ClosingCounts(s, run[0]);
      ClosingEnds(Next(s, run[0]), run[1..]);
    }
  }

  // ---------------------------------------------------------------------------------------
  // Closing begins, and nothing is left behind

  /** Nobody has asked for the connection to be closed. */
  predicate Open(s: State) {
    s.closeState == CLOSE_STATE_NONE
  }

  /** A header that is all right is followed by its packet; with anything else but an abort closing begins. */
  lemma HeaderDecides(s: State, error: ErrorCode, size: int)
    requires Inv(s) && s.reading == HeaderRead
    ensures var t, good := Next(s, HeaderDone(error, size)), error == NoError && 0 < size < NETWORKMESSAGE_MAXSIZE - 16;
            && (Open(t) <==> Open(s) && (error == OperationAborted || good))
            && (t.reading == PacketRead <==> s.closeState != CLOSE_STATE_CLOSING && good)
            && (t.reading == PacketRead || t.reading == NoRead)
            && (t.readError <==> s.readError || (s.closeState != CLOSE_STATE_CLOSING && !good))
  {
    hide Acted;
  }

  lemma {:induction false} ActsDecide(s: State, acts: seq<Act>)
    ensures Open(Acted(s, acts)) <==> Open(s) && CallClose !in acts
    decreases |acts|
  {
    if acts != [] { ActsDecide(ActedOnce(s, acts[0]), acts[1..]); }
  }

  /** A packet that its protocol takes is followed by a header; with anything else but an abort closing begins. */
  lemma PacketDecides(s: State, error: ErrorCode, id: int, acts: seq<Act>)
    requires Inv(s) && s.reading == PacketRead
    ensures var t, known := Next(s, PacketDone(error, id, acts)), s.hasProtocol || id in {0x01, 0x0A, 0xFF};
            && (Open(t) <==>
                  Open(s) && (error == OperationAborted || (error == NoError && known && CallClose !in acts)))
            && (t.reading == HeaderRead <==> s.closeState != CLOSE_STATE_CLOSING && error == NoError && known)
            && (t.reading == HeaderRead || t.reading == NoRead)
            && (t.hasProtocol <==> s.hasProtocol || t.reading == HeaderRead)
            && (t.readError <==> s.readError || (s.closeState != CLOSE_STATE_CLOSING && error != NoError))
  {
    hide Acted, Sent, Inv, Requested, ActedFrom, Failed, Closing;
    var t := s.(pendingRead := s.pendingRead - 1, reading := NoRead);
    FailedOpens(t, error);
    ClosingOpens(t);
    ActsDecide(t.(hasProtocol := true), acts);
    ActsKeep(t.(hasProtocol := true), acts);
    SameBut(t.(hasProtocol := true), Acted(t.(hasProtocol := true), acts));
    ClosedProtocol(s);
  }

  lemma ClosedProtocol(s: State)
    requires Inv(s)
    ensures s.closeState == CLOSE_STATE_CLOSING ==> !s.hasProtocol
  {
  }

  lemma FailedOpens(s: State, error: ErrorCode)
    ensures Open(Failed(s, error)) <==> Open(s) && error == OperationAborted
    ensures !Open(Requested(s))
    ensures SameRead(s, Failed(s, error)) && SameRead(s, Requested(s))
  {
  }

  lemma ClosingOpens(s: State)
    ensures SameRead(s, Closing(s)) && Closing(s).closeState == s.closeState
  {
  }

  predicate SameRead(s: State, t: State) {
    t.reading == s.reading && t.hasProtocol == s.hasProtocol && t.readError == s.readError
  }

  lemma SameBut(s: State, t: State)
    requires ActedFrom(s, t)
    ensures SameRead(s, t)
  {
  }

  /** A write that fails begins the closing, unless it was aborted; no write follows one that failed. */
  lemma WriteDecides(s: State, error: ErrorCode)
    requires Inv(s) && s.writing > 0
    ensures var t := Next(s, WriteDone(error));
            && (Open(t) <==> Open(s) && (error == NoError || error == OperationAborted))
            && (t.writeError <==> error != NoError) && t.writing == 0 && t.reading == s.reading
  {
  }

  /** After a send a write is under way, exactly if one was before or the connection is neither closing nor broken. */
  lemma SendDecides(s: State)
    requires Inv(s) && Enabled(s, Send)
    ensures var t := Next(s, Send);
            && (t.writing == 1 <==> s.writing == 1 || (s.closeState != CLOSE_STATE_CLOSING && !s.writeError))
            && t.(writing := s.writing, pendingWrite := s.pendingWrite) == s
  {
  }

  /** An accepted connection waits for the next read, or it is to be closed. */
  predicate WaitsOrCloses(s: State) {
    s.accepted ==> s.reading != NoRead || !Open(s)
  }

  /** A read that is given up although nobody has asked for that. */
  predicate AbortsRead(e: Event) {
    (e.HeaderDone? || e.PacketDone?) && e.error == OperationAborted
  }

  lemma {:induction false} WaitingStep(s: State, e: Event)
    requires Inv(s) && Enabled(s, e) && WaitsOrCloses(s)
    ensures WaitsOrCloses(Next(s, e)) || AbortsRead(e)
    ensures s.accepted ==> Next(s, e).accepted
  {
    hide Acted, Inv, Sent, Closing, Counts;
    StepCounts(s, e);
    CountsAccepts(s, e);
    match e
    case HeaderDone(error, size) => HeaderDecides(s, error, size);
    case PacketDone(error, id, acts) => PacketDecides(s, error, id, acts);
    case WriteDone(error) => WriteDecides(s, error);
    case Send => SendDecides(s);
    case RunCloseTask => CloseTaskDecides(s);
    case _ =>
  }

  /** References are counted, acceptance is final, and a protocol is there until its release has been asked for. */
  predicate Counts(s: State, e: Event, t: State) {
    && t.refCount == s.refCount + (if e.AddRef? then 1 else if e.DropRef? then -1 else 0)
    && (s.accepted ==> t.accepted)
    && B(t.hasProtocol) + t.protocolTasks >= B(s.hasProtocol) + s.protocolTasks
  }

  lemma {:induction false} StepCounts(s: State, e: Event)
    requires Enabled(s, e)
    ensures Counts(s, e, Next(s, e))
  {
    hide Counts, Enabled, Next;
    if e.PacketDone? { PacketCounts(s, e); } else { OtherCounts(s, e); }
  }

  lemma PacketCounts(s: State, e: Event)
    requires Enabled(s, e) && e.PacketDone?
    ensures Counts(s, e, Next(s, e))
  {
    hide Acted, Sent, Requested;
    var t := s.(pendingRead := s.pendingRead - 1, reading := NoRead);
    ActsKeep(t.(hasProtocol := true), e.acts);
    RequestedKeeps(t);
  }

  lemma OtherCounts(s: State, e: Event)
    requires Enabled(s, e) && !e.PacketDone?
    ensures Counts(s, e, Next(s, e))
  {
    hide Acted, Requested, Sent, Closing, Failed, Inv;
    forall t ensures SameCounts(t, Requested(t)) { HelpersCount(t, NoError); }
    forall t ensures SameCounts(t, Sent(t)) { HelpersCount(t, NoError); }
    forall t ensures SameCounts(t, Closing(t)) { HelpersCount(t, NoError); }
    forall t, error ensures SameCounts(t, Failed(t, error)) { HelpersCount(t, error); }
  }

  predicate SameCounts(s: State, t: State) {
    && t.refCount == s.refCount && t.accepted == s.accepted
    && t.hasProtocol == s.hasProtocol && t.protocolTasks == s.protocolTasks
  }

  lemma HelpersCount(s: State, error: ErrorCode)
    ensures SameCounts(s, Requested(s)) && SameCounts(s, Sent(s)) && SameCounts(s, Closing(s))
    ensures SameCounts(s, Failed(s, error))
  {
  }

  lemma CountsAccepts(s: State, e: Event)
    requires Enabled(s, e) && Counts(s, e, Next(s, e))
    ensures s.accepted ==> Next(s, e).accepted
  {
    hide Next;
  }

  /** The close task begins the closing that has been asked for. */
  lemma CloseTaskDecides(s: State)
    requires Inv(s) && s.closeTasks > 0
    ensures var t := Next(s, RunCloseTask);
            && t.closeState == CLOSE_STATE_CLOSING && t.reading == s.reading && t.accepted == s.accepted
            && (t.socketClosed <==> s.writing == 0)
  {
  }

  lemma {:induction false} WaitsAllTheTime(s: State, run: seq<Event>)
    requires Inv(s) && IsRun(s, run) && WaitsOrCloses(s)
    requires forall e :: e in run ==> !AbortsRead(e)
    ensures WaitsOrCloses(After(s, run))
    decreases |run|
  {
    hide Inv, Next, Enabled, WaitsOrCloses, AbortsRead;
    if run != [] {
      StepKeeps(s, run[0]);
      WaitingStep(s, run[0]);
      WaitsAllTheTime(Next(s, run[0]), run[1..]);
    }
  }

  /** Nothing is under way or waiting any more. */
  predicate Idle(s: State) {
    s.reading == NoRead && s.writing == 0 && s.closeTasks == 0 && s.releaseOwed == 0 && s.releaseTasks == 0
  }

  /** With nothing under way an accepted connection is deleted if and only if its closing has begun. */
  lemma IdleIsDeleted(s: State)
    requires Inv(s) && s.accepted && Idle(s)
    ensures s.deleted <==> !Open(s)
  {
  }

  /**
   No connection is left behind: when nothing is under way any more, it has been deleted, unless one of
   its reads was aborted although nobody had asked for the connection to be closed, and nobody has since.
   */
  lemma NothingLeaks(run: seq<Event>)
    requires IsRun(Initial(), run)
    ensures var t := After(Initial(), run);
            t.accepted && Idle(t) ==>
              && (t.deleted <==> !Open(t))
              && (t.deleted || exists e :: e in run && AbortsRead(e))
  {
    hide Next, Enabled, IsRun, After, Inv, Initial, AbortsRead;
    InitialIs();
    var t := After(Initial(), run);
    RunKeeps(Initial(), run);
    if t.accepted && Idle(t) {
      IdleIsDeleted(t);
      if forall e :: e in run ==> !AbortsRead(e) {
        WaitsAllTheTime(Initial(), run);
      }
    }
  }

  /** The way in which a connection is left behind. */
  lemma AbortLeaks()
    ensures var run := [Accept, HeaderDone(OperationAborted, 0)];
            IsRun(Initial(), run) &&
            var t := After(Initial(), run);
            t.accepted && Idle(t) && !t.deleted
  {
    var e := HeaderDone(OperationAborted, 0);
    var run := [Accept, e];
    assert run[1..] == [e] && [e][1..] == [];
    var s := Next(Initial(), Accept);
    assert IsRun(s, [e]) && After(s, [e]) == Next(s, e);
  }

  /** A protocol that the connection ever had is released exactly once, by the time it is closing. */
  lemma {:induction false} ProtocolReleased(s: State, run: seq<Event>)
    requires Inv(s) && IsRun(s, run) && (s.hasProtocol || s.protocolTasks > 0)
    ensures var t := After(s, run);
            && B(t.hasProtocol) + t.protocolTasks == 1
            && (t.closeState == CLOSE_STATE_CLOSING ==> t.protocolTasks == 1)
    decreases |run|
  {
    hide Next, Enabled, IsRun;
    if run != [] {
      IsRunOn(s, run);
      StepKeeps(s, run[0]);
      StepCounts(s, run[0]);
      ProtocolReleased(Next(s, run[0]), run[1..]);
    }
  }

  lemma IsRunOn(s: State, run: seq<Event>)
    requires IsRun(s, run) && run != []
    ensures Enabled(s, run[0]) && IsRun(Next(s, run[0]), run[1..])
  {
  }

  /** References taken less references given back. */
  function Refs(run: seq<Event>): int {
    if run == [] then 0
    else (if run[0].AddRef? then 1 else if run[0].DropRef? then -1 else 0) + Refs(run[1..])
  }

  lemma {:induction false} RefsCounted(s: State, run: seq<Event>)
    requires IsRun(s, run)
    ensures After(s, run).refCount == s.refCount + Refs(run)
    decreases |run|
  {
    hide Next, Enabled;
    if run != [] {
      StepCounts(s, run[0]);
      RefsCounted(Next(s, run[0]), run[1..]);
    }
  }

  lemma InitialIs()
    ensures Inv(Initial()) && !Released(Initial()) && !Initial().deleted && WaitsOrCloses(Initial())
  {
  }

  lemma ReleasedIs(s: State)
    requires Inv(s)
    ensures Released(s) <==> s.closeState == CLOSE_STATE_CLOSING && s.pendingRead == 0 && s.pendingWrite == 0
    ensures s.deleted ==> Released(s)
    ensures s.protocolTasks <= 1
  {
  }

  /** All of it, from any state that keeps the invariant and is not released; a new connection is in such a state. */
  lemma {:induction false} WholeLife(s: State, run: seq<Event>)
    requires Inv(s) && !Released(s) && IsRun(s, run)
    ensures Inv(After(s, run))
    ensures Decisions(s, run) <= 1 && Deletions(s, run) <= Decisions(s, run)
    ensures var t := After(s, run);
            && Decisions(s, run)
               == B(t.closeState == CLOSE_STATE_CLOSING && t.pendingRead == 0 && t.pendingWrite == 0)
            && t.protocolTasks <= 1
    ensures Inv(Initial()) && !Released(Initial())
  {
    hide Next, Enabled, IsRun, After, Decisions, Deletions, Inv, Released, Initial;
    InitialIs();
    RunKeeps(s, run);
    ReleasedOnce(s, run);
    DeletedOnce(s, run);
    ReleasedIs(s);
    ReleasedIs(After(s, run));
  }

  // ---------------------------------------------------------------------------------------
  // The handlers

  class Connection {
    var closeState: CloseState
    var socketClosed: bool
    var readError: bool
    var writeError: bool
    var pendingRead: int
    var pendingWrite: int
    var refCount: nat
    var hasProtocol: bool
    var lockCount: nat       // how often the running thread holds the recursive lock

    var reading: Reading
    var writing: nat
    var closeTasks: nat
    var releaseOwed: nat
    var releaseTasks: nat
    var protocolTasks: nat
    var accepted: bool
    var deleted: bool

    ghost function Image(): State
      reads this
    {
      State(closeState, socketClosed, readError, writeError, pendingRead, pendingWrite, refCount, hasProtocol,
            reading, writing, closeTasks, releaseOwed, releaseTasks, protocolTasks, accepted, deleted)
    }

    constructor ()
      ensures Image() == Initial() && lockCount == 0
    {
      closeState, socketClosed, readError, writeError := CLOSE_STATE_NONE, false, false, false;
      pendingRead, pendingWrite, refCount, hasProtocol, lockCount := 0, 0, 0, false, 0;
      reading, writing, closeTasks, releaseOwed, releaseTasks, protocolTasks := NoRead, 0, 0, 0, 0, 0;
      accepted, deleted := false, false;
    }

    method Lock()
      modifies this`lockCount
      ensures lockCount == old(lockCount) + 1
    {
      lockCount := lockCount + 1;
    }

    method Unlock()
      requires lockCount > 0
      modifies this`lockCount
      ensures lockCount == old(lockCount) - 1
    {
      lockCount := lockCount - 1;
    }

    method AsyncRead(kind: Reading)
      modifies this`reading
      ensures reading == kind
    {
      reading := kind;
    }

    method AcceptConnection()
      requires Enabled(Image(), Accept)
      modifies this
      ensures Image() == Next(old(Image()), Accept) && lockCount == old(lockCount)
      ensures accepted && reading == HeaderRead && pendingRead == old(pendingRead) + 1
    {
      accepted := true;
      // read size of the first packet
      pendingRead := pendingRead + 1;
      AsyncRead(HeaderRead);
    }

    method CloseConnection()
      modifies this
      ensures Image() == Requested(old(Image())) && lockCount == old(lockCount)
    {
      Lock();
      if closeState != CLOSE_STATE_NONE {
        Unlock();
        return;
      }
      closeState := CLOSE_STATE_REQUESTED;
      closeTasks := closeTasks + 1;
      Unlock();
    }

    method CloseConnectionTask()
      requires Enabled(Image(), RunCloseTask) && lockCount == 0
      modifies this
      ensures Image() == Next(old(Image()), RunCloseTask) && lockCount == 0
    {
      hide Closing, Inv, Requested, Sent, Acted, Failed, ReadStarted, KnownProtocol;
      closeTasks := closeTasks - 1;
      Lock();
      if closeState != CLOSE_STATE_REQUESTED {
        Unlock();
        return;
      }
      StartClosing();
    }

    /** The part of closeConnectionTask for a connection whose closing has been requested. */
    method StartClosing()
      requires lockCount == 1
      modifies this
      ensures Image() == var u := old(Image()).(closeState := CLOSE_STATE_CLOSING);
                         Closing(if u.hasProtocol
                                 then u.(hasProtocol := false, protocolTasks := u.protocolTasks + 1) else u)
      ensures lockCount == 0
    {
      hide Closing;
      closeState := CLOSE_STATE_CLOSING;
      ReleaseProtocol();
      FinishClosing();
    }

    method ReleaseProtocol()
      modifies this`hasProtocol, this`protocolTasks
      ensures !hasProtocol && protocolTasks == old(protocolTasks) + (if old(hasProtocol) then 1 else 0)
    {
      if hasProtocol {
        protocolTasks := protocolTasks + 1;
        hasProtocol := false;
      }
    }

    /** closingConnection, and the unlocking if that has not done it: how every handler ends while closing. */
    method FinishClosing()
      requires lockCount == 1
      modifies this
      ensures Image() == Closing(old(Image())) && lockCount == 0 && closeState == old(closeState)
    {
      hide Closing;
      var released := ClosingConnection();
      if !released {
        Unlock();
      }
    }

    /** Returns true if the lock has been released and the release of the object is owed. */
    method ClosingConnection() returns (released: bool)
      requires lockCount == 1
      modifies this
      ensures Image() == Closing(old(Image())) && closeState == old(closeState)
      ensures lockCount == if released then 0 else 1
      ensures released <==> releaseOwed == old(releaseOwed) + 1
    {
      if pendingWrite == 0 || writeError {
        if !socketClosed {
          socketClosed := true;
        }
        if pendingRead == 0 {
          Unlock();
          releaseOwed := releaseOwed + 1;
          return true;
        }
      }
      return false;
    }

    /** The end of closingConnection, behind the unlocking. */
    method ScheduleReleaseTask()
      requires Enabled(Image(), ScheduleRelease)
      modifies this
      ensures Image() == Next(old(Image()), ScheduleRelease) && lockCount == old(lockCount)
    {
      releaseOwed := releaseOwed - 1;
      releaseTasks := releaseTasks + 1;
    }

    method ReleaseConnection()
      requires Enabled(Image(), RunRelease)
      modifies this
      ensures Image() == Next(old(Image()), RunRelease) && lockCount == old(lockCount)
    {
      releaseTasks := releaseTasks - 1;
      if refCount > 0 {
        // still in use: another task looks again later
        releaseTasks := releaseTasks + 1;
      } else {
        deleted := true;
      }
    }

    method HandleReadError(error: ErrorCode)
      modifies this
      ensures Image() == Failed(old(Image()), error).(readError := true) && lockCount == old(lockCount)
      ensures closeState == CLOSE_STATE_NONE <==> old(closeState) == CLOSE_STATE_NONE && error == OperationAborted
    {
      if error != OperationAborted {
        CloseConnection();
      }
      readError := true;
    }

    method HandleWriteError(error: ErrorCode)
      modifies this
      ensures Image() == Failed(old(Image()), error).(writeError := true) && lockCount == old(lockCount)
      ensures closeState == CLOSE_STATE_NONE <==> old(closeState) == CLOSE_STATE_NONE && error == OperationAborted
    {
      if error != OperationAborted {
        CloseConnection();
      }
      writeError := true;
    }

    method ParseHeader(error: ErrorCode, size: int)
      requires Enabled(Image(), HeaderDone(error, size)) && lockCount == 0
      modifies this
      ensures Image() == Next(old(Image()), HeaderDone(error, size)) && lockCount == 0
      ensures closeState == CLOSE_STATE_NONE <==>
                old(closeState) == CLOSE_STATE_NONE
                && (error == OperationAborted || (error == NoError && 0 < size < NETWORKMESSAGE_MAXSIZE - 16))
    {
      hide Closing, Failed, Requested, Sent, Acted;
      reading := NoRead;
      Lock();
      pendingRead := pendingRead - 1;
      if closeState == CLOSE_STATE_CLOSING {
        FinishClosing();
        return;
      }
      if error == NoError && size > 0 && size < NETWORKMESSAGE_MAXSIZE - 16 {
        // a sensible size: the packet itself comes next
        pendingRead := pendingRead + 1;
        AsyncRead(PacketRead);
      } else {
        HandleReadError(error);
      }
      Unlock();
    }

    method ParsePacket(error: ErrorCode, protocolId: int, acts: seq<Act>)
      requires Enabled(Image(), PacketDone(error, protocolId, acts)) && lockCount == 0
      modifies this
      ensures Image() == Next(old(Image()), PacketDone(error, protocolId, acts)) && lockCount == 0
      ensures closeState == CLOSE_STATE_NONE <==>
                old(closeState) == CLOSE_STATE_NONE
                && (error == OperationAborted
                    || (error == NoError && (old(hasProtocol) || KnownProtocol(protocolId)) && CallClose !in acts))
    {
      hide Closing, Failed, Requested, Sent, Acted, KnownProtocol;
      reading := NoRead;
      Lock();
      pendingRead := pendingRead - 1;
      if closeState == CLOSE_STATE_CLOSING {
        FinishClosing();
        return;
      }
      if error == NoError {
        ReceivePacket(protocolId, acts);
      } else {
        HandleReadError(error);
      }
      Unlock();
    }

    /** The part of parsePacket for a packet that has arrived. */
    method ReceivePacket(protocolId: int, acts: seq<Act>)
      requires lockCount == 1
      modifies this
      ensures Image() == var t := old(Image());
                         if !t.hasProtocol && !KnownProtocol(protocolId) then Requested(t)
                         else ReadStarted(Acted(t.(hasProtocol := true), acts), HeaderRead)
      ensures lockCount == 1
      ensures closeState == CLOSE_STATE_NONE <==>
                old(closeState) == CLOSE_STATE_NONE
                && (old(hasProtocol) || KnownProtocol(protocolId)) && CallClose !in acts
    {
      hide Sent, Acted, KnownProtocol;
      // the first packet says which protocol it is
      if !hasProtocol {
        if KnownProtocol(protocolId) {
          hasProtocol := true;
        } else {
          // none that is known
          CloseConnection();
          return;
        }
      }
      assert Image() == old(Image()).(hasProtocol := true);
      ActsDecide(Image(), acts);
      OnRecvMessage(acts);
      // wait for the next packet
      pendingRead := pendingRead + 1;
      AsyncRead(HeaderRead);
    }

    /** What a protocol does with a message, as far as the connection is concerned. */
    method OnRecvMessage(acts: seq<Act>)
      requires lockCount == 1
      modifies this
      ensures Image() == Acted(old(Image()), acts) && lockCount == 1
    {
      assert acts[0..] == acts;
      for i := 0 to |acts|
        invariant Acted(Image(), acts[i..]) == Acted(old(Image()), acts) && lockCount == 1
      {
        assert acts[i..][0] == acts[i] && acts[i..][1..] == acts[i + 1..];
        match acts[i] {
          case CallClose => CloseConnection();
          case CallSend => var _ := SendMessage();
        }
      }
    }

    /** False if the message will never be sent. */
    method SendMessage() returns (ok: bool)
      modifies this
      ensures Image() == Sent(old(Image())) && lockCount == old(lockCount)
      ensures ok <==> old(closeState) != CLOSE_STATE_CLOSING && !old(writeError)
      ensures writing == old(writing) + (if ok && old(pendingWrite) == 0 then 1 else 0)
    {
      Lock();
      if closeState == CLOSE_STATE_CLOSING || writeError {
        Unlock();
        return false;
      }
      if pendingWrite == 0 {
        pendingWrite := pendingWrite + 1;
        writing := writing + 1;
      }
      Unlock();
      return true;
    }

    method OnWriteOperation(error: ErrorCode)
      requires Enabled(Image(), WriteDone(error)) && lockCount == 0
      modifies this
      ensures Image() == Next(old(Image()), WriteDone(error)) && lockCount == 0
      ensures closeState == CLOSE_STATE_NONE <==>
                old(closeState) == CLOSE_STATE_NONE && (error == NoError || error == OperationAborted)
    {
      hide Concluded;
      writing := writing - 1;
      Lock();
      pendingWrite := pendingWrite - 1;
      ConcludeWrite(error);
    }

    /** onWriteOperation, once the write is no longer pending. */
    method ConcludeWrite(error: ErrorCode)
      requires lockCount == 1
      modifies this
      ensures Image() == Concluded(old(Image()), error) && lockCount == 0
      ensures closeState == CLOSE_STATE_NONE <==>
                old(closeState) == CLOSE_STATE_NONE && (error == NoError || error == OperationAborted)
    {
      hide Closing, Failed;
      if error != NoError {
        HandleWriteError(error);
      }
      if closeState == CLOSE_STATE_CLOSING {
        FinishClosing();
        return;
      }
      Unlock();
    }

    /** One step of a run, whoever takes it. */
    method Step(e: Event)
      requires Inv(Image()) && Enabled(Image(), e) && lockCount == 0
      modifies this
      ensures Image() == Next(old(Image()), e) && Inv(Image()) && lockCount == 0
    {
      hide Acted, Requested, Closing, Sent, Failed, Inv;
      StepKeeps(Image(), e);
      match e {
        case Accept => AcceptConnection();
        case CloseRequest => CloseConnection();
        case RunCloseTask => CloseConnectionTask();
        case HeaderDone(error, size) => ParseHeader(error, size);
        case PacketDone(error, protocolId, acts) => ParsePacket(error, protocolId, acts);
        case Send => var _ := SendMessage();
        case WriteDone(error) => OnWriteOperation(error);
        case ScheduleRelease => ScheduleReleaseTask();
        case RunRelease => ReleaseConnection();
        case AddRef => refCount := refCount + 1;
        case DropRef => refCount := refCount - 1;
      }
    }
  }
}
