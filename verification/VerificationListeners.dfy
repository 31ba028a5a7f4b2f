/** Tasks that forward the states of a verification to a foreign listener, until it is
    done or cancelled. */
module VerificationListeners {
  import opened Wrappers

  datatype CancelInfo = CancelInfo(reason: string, code: string, byUs: bool)

  /** Proposed or accepted protocols, data of devices and identities, in any textual form. */
  type Protocols = string
  type Device = string
  type Identity = string

  // --- The loop --------------------------------------------------------------------------

  /** What the listener got, and whether the task is over, once the stream has yielded
      `states`. A stream that never ends is given by its beginnings. */
  ghost predicate Forwards<S(!new), T>(states: seq<S>, terminal: S -> bool, convert: S -> Option<T>,
                                       calls: seq<T>, over: bool)
  {
    && |calls| <= |states|
    && (forall i | 0 <= i < |calls| :: convert(states[i]) == Some(calls[i]))
    && (forall i | 0 <= i < |calls| - 1 :: !terminal(states[i]))
    && (over <==> exists i :: 0 <= i < |states| && terminal(states[i]))
    && (if over then |calls| > 0 && terminal(states[|calls| - 1]) else |calls| == |states|)
  }

  /** The loop that the source has for each kind of verification. `None` is the panic of a
      conversion; then the task ends early. */
  method ChangesListener<S(!new), T>(states: seq<S>, terminal: S -> bool, convert: S -> Option<T>)
    returns (calls: seq<T>, over: bool, panicked: bool)
    ensures panicked ==> |calls| < |states| && convert(states[|calls|]).None? && !over
                         && (forall i | 0 <= i < |calls| ::
                             !terminal(states[i]) && convert(states[i]) == Some(calls[i]))
    ensures !panicked ==> Forwards(states, terminal, convert, calls, over)
  {
    calls, over, panicked := [], false, false;
    var i := 0;
    while i < |states| && !over
      invariant 0 <= i <= |states| && |calls| == i && !panicked
      invariant forall j | 0 <= j < i :: convert(states[j]) == Some(calls[j])
      invariant forall j | 0 <= j < i :: terminal(states[j]) ==> over && j == i - 1
      invariant over ==> i > 0 && terminal(states[i - 1])
    {
      var shouldBreak := terminal(states[i]);
      match convert(states[i]) {
        case None =>
          panicked := true;
          return;
        case Some(state) => calls := calls + [state];
      }
      i := i + 1;
      if shouldBreak { over := true; }
    }
  }

  /** There is only one thing to forward; and once the task is over nothing that the
      stream may still yield is forwarded. */
  lemma ForwardsIsUnique<S(!new), T>(states: seq<S>, more: seq<S>, terminal: S -> bool, convert: S -> Option<T>,
                                     calls: seq<T>, over: bool, calls': seq<T>, over': bool)
    requires Forwards(states, terminal, convert, calls, over)
             && Forwards(states + more, terminal, convert, calls', over')
    ensures calls <= calls' && (over ==> over' && calls' == calls) && (more == [] ==> calls' == calls && over' == over)
  {
    assert forall i | 0 <= i < |states| :: (states + more)[i] == states[i];
    if over {
      assert terminal((states + more)[|calls| - 1]);
      assert over';
    }
    assert more == [] ==> states + more == states;
  }

  // --- Short authentication strings --------------------------------------------------------

  datatype Emojis = Emojis(indices: seq<nat>, symbols: seq<string>)

  datatype RustSasState =
    | RCreated(protocols: Protocols) | RStarted(protocols: Protocols) | RAccepted(accepted: Protocols)
    | RKeysExchanged(emojis: Option<Emojis>, decimals: (nat, nat, nat))
    | RConfirmed | RDone(devices: seq<Device>, identities: seq<Identity>) | RCancelled(info: CancelInfo)

  datatype SasState =
    | Created | Started | Accepted
    | KeysExchanged(emojis: Option<seq<int>>, decimals: seq<int>)
    | Confirmed | Done | Cancelled(info: CancelInfo)

  function ConvertSas(s: RustSasState): SasState {
    match s
    case RCreated(_) => Created
    case RStarted(_) => Started
    case RAccepted(_) => Accepted
    case RKeysExchanged(emojis, d) =>
      KeysExchanged(if emojis.None? then None else Some(emojis.value.indices), [d.0, d.1, d.2])
    case RConfirmed => Confirmed
    case RDone(_, _) => Done
    case RCancelled(info) => Cancelled(info)
  }

  predicate SasIsTerminal(s: RustSasState) {
    s.RDone? || s.RCancelled?
  }

  /** The states differ at most in what the listener is not told: protocols, symbols of
      emojis, and what has been verified. */
  predicate SasAlike(s: RustSasState, t: RustSasState) {
    match s
    case RCreated(_) => t.RCreated?
    case RStarted(_) => t.RStarted?
    case RAccepted(_) => t.RAccepted?
    case RKeysExchanged(e, d) =>
      && t.RKeysExchanged? && d == t.decimals && e.Some? == t.emojis.Some?
      && (e.Some? ==> e.value.indices == t.emojis.value.indices)
    case RConfirmed => t.RConfirmed?
    case RDone(_, _) => t.RDone?
    case RCancelled(_) => t == s
  }

  /** What a listener reads off a call: the kind of the state, three decimals in their order,
      the indices of the emojis in theirs, and why it was cancelled. */
  predicate SasShown(s: RustSasState, shown: SasState) {
    && s.RCreated? == shown.Created? && s.RStarted? == shown.Started? && s.RAccepted? == shown.Accepted?
    && s.RKeysExchanged? == shown.KeysExchanged? && s.RConfirmed? == shown.Confirmed? && s.RDone? == shown.Done?
    && s.RCancelled? == shown.Cancelled?
    && (s.RKeysExchanged? ==>
          && |shown.decimals| == 3 && shown.decimals[0] == s.decimals.0
          && shown.decimals[1] == s.decimals.1 && shown.decimals[2] == s.decimals.2
          && s.emojis.Some? == shown.emojis.Some?
          && (s.emojis.Some? ==>
                && |shown.emojis.value| == |s.emojis.value.indices|
                && forall i | 0 <= i < |s.emojis.value.indices| :: shown.emojis.value[i] == s.emojis.value.indices[i]))
    && (s.RCancelled? ==> shown.info == s.info)
  }

  lemma SasIsShown(s: RustSasState)
    ensures SasShown(s, ConvertSas(s))
  {
  }

  /** Two states look the same to the listener exactly if they are alike, and it sees the
      end exactly when there is one. */
  lemma SasConversion(s: RustSasState, t: RustSasState)
    ensures ConvertSas(s) == ConvertSas(t) <==> SasAlike(s, t)
    ensures SasIsTerminal(s) <==> ConvertSas(s).Done? || ConvertSas(s).Cancelled?
  {
    if s.RKeysExchanged? && t.RKeysExchanged? {
      var a, b := ConvertSas(s).decimals, ConvertSas(t).decimals;
      assert a == b ==> a[0] == b[0] && a[1] == b[1] && a[2] == b[2];
    }
  }

  /** The documented flowchart. */
  predicate SasNext(s: RustSasState, t: RustSasState) {
    t.RCancelled? ||
    match s
    case RCreated(_) => t.RAccepted?
    case RStarted(_) => t.RAccepted?
    case RAccepted(_) => t.RKeysExchanged?
    case RKeysExchanged(_, _) => t.RConfirmed?
    case RConfirmed => t.RDone?
    case _ => false
  }

  predicate FollowsFlowchart(states: seq<RustSasState>) {
    forall i | 0 < i < |states| && !SasIsTerminal(states[i - 1]) :: SasNext(states[i - 1], states[i])
  }

  function Rank(s: RustSasState): nat {
    match s
    case RAccepted(_) => 1
    case RKeysExchanged(_, _) => 2
    case RConfirmed => 3
    case RDone(_, _) => 4
    case RCancelled(_) => 4
    case _ => 0
  }

  lemma {:induction false} RankGrows(states: seq<RustSasState>, i: nat, j: nat)
    requires FollowsFlowchart(states) && i <= j < |states| && forall k | 0 <= k < j :: !SasIsTerminal(states[k])
    ensures Rank(states[j]) >= Rank(states[i]) + j - i
  {
    if i < j {
      RankGrows(states, i, j - 1);
      assert SasNext(states[j - 1], states[j]);
    }
  }

  /** A stream that follows the flowchart ends the task after at most five states, and the
      listener never sees the same one twice. */
  lemma SasStops(states: seq<RustSasState>, calls: seq<SasState>, over: bool)
    requires FollowsFlowchart(states) && Forwards(states, SasIsTerminal, s => Some(ConvertSas(s)), calls, over)
    ensures |calls| <= 5 && (|states| >= 5 ==> over)
    ensures forall i, j | 0 <= i < j < |calls| :: calls[i] != calls[j]
  {
    if |calls| >= 5 {
      assert forall j | 0 <= j < 4 :: !SasIsTerminal(states[j]);
      RankGrows(states, 0, 4);
      assert SasIsTerminal(states[4]);
    }
    forall i, j | 0 <= i < j < |calls| ensures calls[i] != calls[j] {
      RankGrows(states, i, j);
      SasConversion(states[i], states[j]);
    }
  }

  // --- QR codes ------------------------------------------------------------------------------

  datatype RustQrState =
    | QStarted | QScanned | QConfirmed | QReciprocated
    | QDone(devices: seq<Device>, identities: seq<Identity>) | QCancelled(info: CancelInfo)
  datatype QrState = QrStarted | QrScanned | QrConfirmed | QrReciprocated | QrDone | QrCancelled(info: CancelInfo)

  function ConvertQr(s: RustQrState): QrState {
    match s
    case QStarted => QrStarted
    case QScanned => QrScanned
    case QConfirmed => QrConfirmed
    case QReciprocated => QrReciprocated
    case QDone(_, _) => QrDone
    case QCancelled(info) => QrCancelled(info)
  }

  predicate QrIsTerminal(s: RustQrState) {
    s.QDone? || s.QCancelled?
  }

  predicate QrShown(s: RustQrState, shown: QrState) {
    && s.QStarted? == shown.QrStarted? && s.QScanned? == shown.QrScanned? && s.QConfirmed? == shown.QrConfirmed?
    && s.QReciprocated? == shown.QrReciprocated? && s.QDone? == shown.QrDone? && s.QCancelled? == shown.QrCancelled?
    && (s.QCancelled? ==> shown.info == s.info)
  }

  lemma QrIsShown(s: RustQrState)
    ensures QrShown(s, ConvertQr(s))
  {
  }

  /** Two states look the same exactly if they are, or both are done, whatever has been
      verified. */
  lemma QrConversion(s: RustQrState, t: RustQrState)
    ensures ConvertQr(s) == ConvertQr(t) <==> s == t || (s.QDone? && t.QDone?)
    ensures QrIsTerminal(s) <==> ConvertQr(s).QrDone? || ConvertQr(s).QrCancelled?
  {
  }

  // --- Requests ------------------------------------------------------------------------------

  datatype RustRequestState =
    | RequestCreated(ours: seq<string>)
    | RequestRequested(theirs: seq<string>, device: Device)
    | RequestReady(theirs: seq<string>, ours: seq<string>, device: Device)
    | RequestTransitioned(verification: string, device: Device)
    | RequestDone
    | RequestCancelled(info: CancelInfo)

  datatype RequestState =
    | Requested | Ready(theirs: seq<string>, ours: seq<string>) | Finished | Abandoned(info: CancelInfo)

  /** The request itself knows the methods of both sides, once they are known. */
  datatype Request = Request(theirs: Option<seq<string>>, ours: Option<seq<string>>)

  function ConvertRequest(request: Request, s: RustRequestState): Option<RequestState> {
    match s
    case RequestCreated(_) => Some(Requested)
    case RequestRequested(_, _) => Some(Requested)
    case RequestReady(theirs, ours, _) => Some(Ready(theirs, ours))
    case RequestDone => Some(Finished)
    case RequestTransitioned(_, _) =>
      if request.theirs.Some? && request.ours.Some? then Some(Ready(request.theirs.value, request.ours.value)) else None
    case RequestCancelled(info) => Some(Abandoned(info))
  }

  predicate RequestIsTerminal(s: RustRequestState) {
    s.RequestDone? || s.RequestCancelled?
  }

  /** The methods of both sides, in the states that have them. */
  function MethodsIn(request: Request, s: RustRequestState): Option<(seq<string>, seq<string>)> {
    if s.RequestReady? then Some((s.theirs, s.ours))
    else if s.RequestTransitioned? && request.theirs.Some? && request.ours.Some?
    then Some((request.theirs.value, request.ours.value))
    else None
  }

  /** Created and requested are shown as requested, ready and transitioned as ready, with the
      methods of either side as its own. */
  predicate RequestShown(request: Request, s: RustRequestState, shown: RequestState) {
    && (s.RequestCreated? || s.RequestRequested? <==> shown.Requested?)
    && (s.RequestReady? || s.RequestTransitioned? <==> shown.Ready?)
    && s.RequestDone? == shown.Finished? && s.RequestCancelled? == shown.Abandoned?
    && (s.RequestReady? ==> shown.theirs == s.theirs && shown.ours == s.ours)
    && (s.RequestTransitioned? ==> Some(shown.theirs) == request.theirs && Some(shown.ours) == request.ours)
    && (s.RequestCancelled? ==> shown.info == s.info)
  }

  lemma RequestIsShown(request: Request, s: RustRequestState)
    ensures ConvertRequest(request, s).Some? ==> RequestShown(request, s, ConvertRequest(request, s).value)
  {
  }

  /** What a listener cannot tell apart: created and requested, and ready and transitioned
      with the same methods. */
  predicate RequestAlike(request: Request, s: RustRequestState, t: RustRequestState) {
    || ((s.RequestCreated? || s.RequestRequested?) && (t.RequestCreated? || t.RequestRequested?))
    || (MethodsIn(request, s).Some? && MethodsIn(request, s) == MethodsIn(request, t))
    || (RequestIsTerminal(s) && s == t)
  }

  /** Only a transitioned request without known methods panics; otherwise two states look
      the same exactly if they are alike, and the listener sees the end exactly when there
      is one. */
  lemma RequestConversion(request: Request, s: RustRequestState, t: RustRequestState)
    ensures ConvertRequest(request, s).None? <==> s.RequestTransitioned? && (request.theirs.None? || request.ours.None?)
    ensures ConvertRequest(request, s).Some? ==>
              && (ConvertRequest(request, s) == ConvertRequest(request, t) <==> RequestAlike(request, s, t))
              && var c := ConvertRequest(request, s).value; RequestIsTerminal(s) <==> c.Finished? || c.Abandoned?
  {
  }

  /** The three listeners. */
  method ListenToSas(states: seq<RustSasState>) returns (calls: seq<SasState>, over: bool)
    ensures Forwards(states, SasIsTerminal, s => Some(ConvertSas(s)), calls, over)
    ensures |calls| <= |states| && forall i | 0 <= i < |calls| :: SasShown(states[i], calls[i])
    ensures FollowsFlowchart(states) ==>
              |calls| <= 5 && (|states| >= 5 ==> over) && forall i, j | 0 <= i < j < |calls| :: calls[i] != calls[j]
  {
    hide SasShown;
    var panicked;
    calls, over, panicked := ChangesListener(states, SasIsTerminal, s => Some(ConvertSas(s)));
    forall i | 0 <= i < |calls| ensures SasShown(states[i], calls[i]) { SasIsShown(states[i]); }
    if FollowsFlowchart(states) { SasStops(states, calls, over); }
  }

  method ListenToQr(states: seq<RustQrState>) returns (calls: seq<QrState>, over: bool)
    ensures Forwards(states, QrIsTerminal, s => Some(ConvertQr(s)), calls, over)
    ensures |calls| <= |states| && forall i | 0 <= i < |calls| :: QrShown(states[i], calls[i])
  {
    hide QrShown;
    var panicked;
    calls, over, panicked := ChangesListener(states, QrIsTerminal, s => Some(ConvertQr(s)));
    forall i | 0 <= i < |calls| ensures QrShown(states[i], calls[i]) { QrIsShown(states[i]); }
  }

  /** Each state is converted with what the request knows by then. */
  method ListenToRequest(states: seq<(Request, RustRequestState)>)
    returns (calls: seq<RequestState>, over: bool, panicked: bool)
    ensures panicked <==> exists i :: 0 <= i < |states| && PanicsAt(states, i)
    ensures !panicked ==> Forwards(states, RequestEnds, ConvertKnown, calls, over)
    ensures |calls| <= |states| && forall i | 0 <= i < |calls| :: RequestShown(states[i].0, states[i].1, calls[i])
  {
    calls, over, panicked := ChangesListener(states, RequestEnds, ConvertKnown);
    forall i | 0 <= i < |calls| ensures RequestShown(states[i].0, states[i].1, calls[i]) {
      assert ConvertKnown(states[i]) == Some(calls[i]);
      RequestIsShown(states[i].0, states[i].1);
    }
    if panicked {
      assert PanicsAt(states, |calls|);
    } else {
      forall i | 0 <= i < |states| && ConvertKnown(states[i]).None?
        ensures exists j :: 0 <= j < i && RequestEnds(states[j])
      {
        assert i >= |calls|;
        assert RequestEnds(states[|calls| - 1]);
      }
    }
  }

  predicate RequestEnds(s: (Request, RustRequestState)) {
    RequestIsTerminal(s.1)
  }

  function ConvertKnown(s: (Request, RustRequestState)): Option<RequestState> {
    ConvertRequest(s.0, s.1)
  }

  /** The first state that does not convert, with no end before it. */
  predicate PanicsAt(states: seq<(Request, RustRequestState)>, i: nat) {
    && i < |states| && states[i].1.RequestTransitioned? && (states[i].0.theirs.None? || states[i].0.ours.None?)
    && forall j | 0 <= j < i :: !RequestEnds(states[j]) && ConvertKnown(states[j]).Some?
  }
}
